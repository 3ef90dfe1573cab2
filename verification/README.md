# Venice arbitrage monitor: a Dafny model of its pricing and signal engine

The Venice monitor polls quote sources for the VVV token and for DIEM, the
token minted by staking VVV. Each check it:

- aggregates the quotes into one median price per token;
- derives the DIEM mint rate and the cost of minting one DIEM;
- classifies the mint-and-sell spread;
- values DIEM as a perpetuity of one dollar of API credit per day;
- scores VVV momentum from an RSI, the recent price action and the volume;
- compares DIEM quotes across exchanges;
- sends JSON-RPC notifications to a Caelum daemon, with two de-duplication
  fields so that the same arbitrage or momentum call is not repeated.

This project models that engine in Dafny, as pure functions over exact
`real` numbers, and proves what each step promises.

Every outside answer is an input value:

- the answer of a quote source;
- the mint-rate endpoint;
- the stored price history;
- the daemon's reply.

The modules follow the repository's layout:

| module | file | models |
|---|---|---|
| `Basics` | basics.dfy | `None`/value, results with an exception, Python truthiness, labels |
| `Stats` | stats.dfy | `sorted`, `statistics.median`, `min`, `max` |
| `PriceTracker` | price_tracker.dfy | `diem_tracker.py` and `vvv_tracker.py` (the same code over two assets) |
| `MintCalculator` | mint_calculator.dfy | `mint_calculator.py`; `math.exp` is any positive, strictly increasing function with `exp(0) = 1` |
| `SpreadAnalyzer` | spread_analyzer.dfy | `spread_analyzer.py` |
| `IntrinsicValue` | intrinsic_value.dfy | `intrinsic_value.py` |
| `VvvSignals` | vvv_signals.dfy | `vvv_signals.py`, with pandas' NaN as a value of its own |
| `Config` | config.dfy | `config.py`: a YAML value tree, dotted lookup, environment overrides |
| `CaelumNotifier` | caelum_notifier.dfy | `caelum_notifier.py` without its socket |
| `Monitor` | monitor.dfy | `main.py`'s `check_prices` as a transition (state, world) → (state, effects, raised) |

Modelling choices:

- **A source's answer** is a `Fetch`: either it raised, or it returned a
  price, which may be `None`, zero or negative.
- **The per-source map** is an association list in insertion order.
  `min(d, key=d.get)` and `max(d, key=d.get)` pick the first extreme entry
  in that order, and the list keeps that order visible.
- **The stored VVV history** is most recent first, because the database
  orders it that way. RSI is computed on that list exactly as given.
- **A cycle's effects** are the database writes and the notifications, in
  order. Each notification records whether `send_notification` reported
  success.
- **An exception** that escapes `check_prices` ends the cycle with what was
  already done, and `raised` is set. The run loop logs the exception and
  carries on.

## Model

| member | source | states |
|---|---|---|
| Stats.Sort | venice_monitor/pricing/diem_tracker.py:55 | The list the median is taken from is sorted and a permutation of the quotes (same multiset, same length). |
| Stats.SortedUnique | venice_monitor/pricing/diem_tracker.py:55 | Two sorted lists with the same elements are equal, so the sorted order is determined by the multiset of quotes. |
| Stats.MedianPermutationInvariant | venice_monitor/pricing/diem_tracker.py:55 | The median depends only on the multiset of values, not on their order. |
| Stats.MedianWithinRange | venice_monitor/pricing/diem_tracker.py:55 | The median lies between the smallest and the largest value, for odd and even counts. |
| Stats.MedianOfAnySorting | venice_monitor/pricing/diem_tracker.py:55 | The median is the middle of every sorted rearrangement of the list, not only of the one the sort builds. |
| Stats.MedianOfSingleton | venice_monitor/pricing/diem_tracker.py:55 | A single value is its own median. |
| Stats.MedianOfConstant | venice_monitor/pricing/diem_tracker.py:55 | A list of one repeated value has that value as median. |
| Stats.MinOf | venice_monitor/analysis/vvv_signals.py:81 | `min` returns an element of the list that no element is below. |
| Stats.MaxOf | venice_monitor/analysis/vvv_signals.py:80 | `max` returns an element of the list that no element exceeds. |
| PriceTracker.Sources | venice_monitor/pricing/diem_tracker.py:23-31 | The source list has 1 or 2 distinct entries and ends with coingecko. It holds coinmarketcap iff the key is truthy, so the "no sources" warning is unreachable. vvv_tracker.py:23-31 is the same code. |
| PriceTracker.ValidPrices | venice_monitor/pricing/diem_tracker.py:39-49 | The collected prices are all positive and no more than the readings. None are collected iff no reading is a present, positive returned price. |
| PriceTracker.GetPrice | venice_monitor/pricing/diem_tracker.py:33-58 | `get_price` is None iff no source gave a present, positive quote. Otherwise it is positive and within [min, max] of the valid quotes. It equals the middle element (odd count) or the mean of the two middle elements (even count) of EVERY sorted arrangement of the valid quotes. |
| PriceTracker.ValidPricesAppend | venice_monitor/pricing/diem_tracker.py:41-48 | The loop over sources collects over a concatenation of source lists as over each list in turn, preserving order. |
| PriceTracker.ValidPricesPermutation | venice_monitor/pricing/diem_tracker.py:41-45 | Reordering the sources permutes the collected prices. |
| PriceTracker.GetPricePermutationInvariant | venice_monitor/pricing/vvv_tracker.py:39-58 | The aggregated price is the same for any order of the sources. |
| PriceTracker.UnusableSourceIgnored | venice_monitor/pricing/vvv_tracker.py:41-48 | Removing a source that raised or answered None, zero or a negative number leaves the aggregated price unchanged: failures are isolated. |
| PriceTracker.UnusableSourceSkipped | venice_monitor/pricing/diem_tracker.py:41-48 | Removing such a source leaves the list of collected prices itself unchanged. |
| PriceTracker.SingleUsableSource | venice_monitor/pricing/diem_tracker.py:50-58 | With exactly one usable quote, that quote is the returned price. |
| PriceTracker.Put | venice_monitor/pricing/diem_tracker.py:71 | Dict assignment keeps keys unique, stores the pair, keeps every other key's entry, and adds the key to the key set. |
| PriceTracker.Stored | venice_monitor/pricing/diem_tracker.py:69-74 | A raising source is stored as None, and any returned value is stored unfiltered. What is stored is present and positive iff the reading is usable. |
| PriceTracker.GetAllPrices | venice_monitor/pricing/diem_tracker.py:60-76 | One entry per source name, each holding what that name's last reading stored. |
| PriceTracker.AllPricesOfDistinctSources | venice_monitor/pricing/vvv_tracker.py:60-76 | With distinct names, as the constructor makes them, the map is exactly the readings' answers in source order. |
| PriceTracker.PutFresh | venice_monitor/pricing/diem_tracker.py:71 | Assigning a new key appends it at the end, as Python dicts keep insertion order. |
| PriceTracker.ValidEntries | venice_monitor/pricing/diem_tracker.py:88 | The filtered dict holds exactly the entries whose value is present and positive. |
| PriceTracker.ValidEntriesCount | venice_monitor/pricing/diem_tracker.py:88-91 | The filtered dict's size is the number of present, positive entries. |
| PriceTracker.ArgMin | venice_monitor/pricing/diem_tracker.py:93 | The chosen buy entry holds the smallest price, and is the first entry to hold it. |
| PriceTracker.ArgMax | venice_monitor/pricing/diem_tracker.py:94 | The chosen sell entry holds the largest price, and is the first entry to hold it. |
| PriceTracker.OpportunityFrom | venice_monitor/pricing/diem_tracker.py:90-119 | A reported opportunity buys at the minimum valid price and sells at the maximum. The buy entry is the first cheapest: every earlier entry is strictly dearer. The sell entry is the first dearest: every earlier entry is strictly cheaper. Its `spread_usd` is sell − buy ≥ 0, and its `spread_percent` is spread/buy·100 ≥ the threshold. With fewer than 2 entries nothing is reported. When nothing is reported, no pair of entries reaches the threshold. |
| PriceTracker.SpreadIsWidest | venice_monitor/pricing/diem_tracker.py:93-102 | No pair of quotes is further apart, relative to the cheaper one, than the minimum and the maximum. So comparing only those two is enough. |
| PriceTracker.DetectCrossExchangeArbitrage | venice_monitor/pricing/diem_tracker.py:78-91 | Fewer than two valid quotes yield None. |
| PriceTracker.LoneQuoteNoOpportunity | venice_monitor/pricing/diem_tracker.py:87-91 | A single usable quote never yields an opportunity, however extreme it is. |
| MintCalculator.WitnessIsExponential | venice_monitor/pricing/mint_calculator.py:68 | Functions with the properties assumed of `math.exp` exist, so the assumption is consistent. |
| MintCalculator.EstimateMintRate | venice_monitor/pricing/mint_calculator.py:50-71 | The estimate is positive. It is 90 at supply 0 and 90·exp(3) at the target supply of 38000. |
| MintCalculator.EstimateDefaultsToFallbackSupply | venice_monitor/pricing/mint_calculator.py:62-64 | Without a supply the estimate is the one at 32000. |
| MintCalculator.CubeStrictlyIncreasing | venice_monitor/pricing/mint_calculator.py:67 | Cubing is strictly increasing over all reals. |
| MintCalculator.EstimateStrictlyIncreasing | venice_monitor/pricing/mint_calculator.py:66-68 | A larger supply gives a strictly larger estimated rate. |
| MintCalculator.CurrentMintRate | venice_monitor/pricing/mint_calculator.py:26-48 | A failed request or an unparsable body gives the (positive) estimate. A parsed body gives its `mint_rate`, or 0.0 when the field is missing. |
| MintCalculator.MintCost | venice_monitor/pricing/mint_calculator.py:73-91 | The cost is rate × price, unclamped. Its sign follows the rate's for a positive price, it is zero when either factor is, and dividing by the price gives back the rate. |
| MintCalculator.CalculateArbitrageSpread | venice_monitor/pricing/mint_calculator.py:93-128 | `spread_usd` is market − cost, and `spread_percent` is 0 for a non-positive cost. It is profitable iff `spread_percent` > 0 iff the cost is positive and the market exceeds it, with no minimum. The recommendation is MINT & SELL iff profitable, else HOLD VVV. The reported rate is the given truthy rate, else a fresh fetch. |
| SpreadAnalyzer.AnalyzeMintArbitrage | venice_monitor/analysis/spread_analyzer.py:21-75 | `spread_percent` is the spread over a positive cost (0 otherwise). MINT & SELL iff `spread_percent` ≥ the minimum, and then HIGH iff above 10, else MEDIUM. HOLD VVV (HIGH) iff not profitable and negative. MONITOR (LOW) iff 0 ≤ `spread_percent` < minimum. The estimated profit is max(0, spread). |
| SpreadAnalyzer.ProfitableIffMarketCoversMargin | venice_monitor/analysis/spread_analyzer.py:34-37 | Over a positive cost, the call is profitable iff market·100 ≥ cost·(100 + minimum profit). |
| SpreadAnalyzer.ShouldAlertIff | venice_monitor/analysis/spread_analyzer.py:77-94 | `should_alert` holds iff `spread_percent` ≥ the minimum or < −75. |
| SpreadAnalyzer.ShouldAlert | venice_monitor/analysis/spread_analyzer.py:77-94 | Every profitable analysis alerts, and so does every spread below −75 %. Any other analysis does not. |
| SpreadAnalyzer.AlertedRecommendationIsDecisive | venice_monitor/analysis/spread_analyzer.py:40-94 | An alerted analysis never recommends MONITOR. |
| SpreadAnalyzer.NonPositiveCostIsQuiet | venice_monitor/analysis/spread_analyzer.py:35-48 | With cost ≤ 0 and a positive minimum, the call is MONITOR with LOW confidence and is not alerted. |
| IntrinsicValue.EffectiveRate | venice_monitor/analysis/intrinsic_value.py:35-39 | The rate taken is the argument when given, else the calculator's own rate. A positive rate is used as it is; a non-positive one is replaced by 0.25. So the rate divided by is always positive. |
| IntrinsicValue.DcfValue | venice_monitor/analysis/intrinsic_value.py:24-48 | The value is positive and never raises. For a positive rate (given, else stored) it is 365/rate. For a non-positive rate, given or stored, it is 1460. |
| IntrinsicValue.DcfStrictlyDecreasing | venice_monitor/analysis/intrinsic_value.py:41 | A higher positive rate gives a strictly lower value. |
| IntrinsicValue.PaybackPeriod | venice_monitor/analysis/intrinsic_value.py:50-61 | At one dollar per day the payback in days equals the price. |
| IntrinsicValue.BuyVerdict | venice_monitor/analysis/intrinsic_value.py:93-103 | The verdict is STRONG BUY or BUY exactly when undervalued, STRONG BUY exactly when also below 0.85 of the value. HOLD only with a payback under 300 days, and a fairly valued token with such a payback is always HOLD. |
| IntrinsicValue.AnalyzeValuation | venice_monitor/analysis/intrinsic_value.py:63-126 | Values are 1460 and 730 whatever rate is configured. `mint_cost` = rate·price, and `price_to_mint` is 0 for a non-positive cost. Undervalued iff price < 1460. STRONG BUY iff price < 0.85·1460. BUY iff 0.85·1460 ≤ price < 1460. AVOID iff price ≥ 1460. HOLD never occurs. |
| VvvSignals.Window | venice_monitor/analysis/vvv_signals.py:51-52 | The rolling window at the last row is the last `period + 1` prices. |
| VvvSignals.RsiOf | venice_monitor/analysis/vvv_signals.py:54-55 | RSI from the window's gain and loss sums: NaN iff both are 0, otherwise in [0, 100] and equal to 100·gain/(gain + loss). |
| VvvSignals.RsiFormula | venice_monitor/analysis/vvv_signals.py:54-55 | The code's 100 − 100/(1 + mean gain/mean loss) equals 100·gain/(gain + loss) when there is a loss. |
| VvvSignals.CalculateRsi | venice_monitor/analysis/vvv_signals.py:31-60 | None iff fewer than `period + 1` prices. NaN iff the last window has neither gain nor loss. Otherwise in [0, 100], as the gain share of the last window's rolling means. |
| VvvSignals.RsiReadsLastWindow | venice_monitor/analysis/vvv_signals.py:45-57 | Only the last `period + 1` prices matter. |
| VvvSignals.RisingWindowReadsHundred | venice_monitor/analysis/vvv_signals.py:54-55 | A window increasing in list order gives exactly 100 (no losses, so rs is infinite). |
| VvvSignals.FallingWindowReadsZero | venice_monitor/analysis/vvv_signals.py:54-55 | A window decreasing in list order gives exactly 0. |
| VvvSignals.FlatWindowReadsNaN | venice_monitor/analysis/vvv_signals.py:54-55 | A flat window gives 0/0, a NaN. |
| VvvSignals.ReverseSwapsSums | venice_monitor/analysis/vvv_signals.py:46-49 | Reversing the list exchanges the gain and loss sums. |
| VvvSignals.ReversedRsiComplements | venice_monitor/analysis/vvv_signals.py:45-55 | On a reversed window the RSI is 100 minus the original, and NaN exactly when the original is. So the order the history is given in decides the reading. |
| VvvSignals.PriceSignals | venice_monitor/analysis/vvv_signals.py:86-104 | The signals come in PRICE_DROP, BOUNCE order, each at most once. PRICE_DROP iff drop ≥ threshold. BOUNCE iff rise > 5 and drop > 10. Together they score 0 to 4. |
| VvvSignals.DropSignals | venice_monitor/analysis/vvv_signals.py:88-95 | The PRICE_DROP signal alone: present iff drop ≥ threshold, worth at most 3. |
| VvvSignals.BounceSignals | venice_monitor/analysis/vvv_signals.py:97-104 | The BOUNCE signal alone: present iff rise > 5 and drop > 10, worth at most 1. |
| VvvSignals.PriceSignalDetails | venice_monitor/analysis/vvv_signals.py:89-104 | A PRICE_DROP carries the drop and is HIGH iff drop > 20. A BOUNCE carries the rise and is MEDIUM. |
| VvvSignals.AnalyzePriceAction | venice_monitor/analysis/vvv_signals.py:62-115 | INSUFFICIENT_DATA iff the history is empty or shorter than the lookback. Otherwise it is the analysis of exactly the first `lookback` entries. |
| VvvSignals.ActionBetween | venice_monitor/analysis/vvv_signals.py:83-115 | Given the high and low, the result carries the price, high and low, the drop from the high and the rise off the low as percentages of each, and the signals `PriceSignals` derives from those two. |
| VvvSignals.RecentAction | venice_monitor/analysis/vvv_signals.py:79-115 | It raises ZeroDivisionError iff the window's high or low is 0. Otherwise the high is the window's `max` and the low its `min` (entries that bound every entry, as `Stats.MaxOf` and `Stats.MinOf` state). The rest is the analysis between them: the drop from the high and the rise off the low as percentages of each, and `PriceSignals` of those. |
| VvvSignals.PercentOf | venice_monitor/analysis/vvv_signals.py:83-84 | x/base·100 multiplies back to x·100, and for a positive base it is positive iff x is. |
| VvvSignals.PriceActionReadsLookbackOnly | venice_monitor/analysis/vvv_signals.py:79 | Histories that agree on their first `lookback` entries give the same analysis. |
| VvvSignals.RsiSignals | venice_monitor/analysis/vvv_signals.py:139-148 | RSI_OVERSOLD iff the RSI is a number below the threshold (NaN compares false). It carries the RSI and is HIGH iff below 20. |
| VvvSignals.VolumeSignals | venice_monitor/analysis/vvv_signals.py:161-171 | VOLUME_SPIKE iff both volumes are truthy, the average is positive and the ratio reaches the multiplier. It carries the ratio and is MEDIUM. |
| VvvSignals.Recommend | venice_monitor/analysis/vvv_signals.py:173-185 | STRONG BUY/HIGH iff score ≥ 5. BUY/MEDIUM iff 3 ≤ score < 5. CONSIDER/LOW iff 1 ≤ score < 3. HOLD/NEUTRAL otherwise. |
| VvvSignals.ScoreSignals | venice_monitor/analysis/vvv_signals.py:135-196 | The signals are the RSI, price-action and volume groups in that order, each kind at most once. The branch-by-branch score equals the sum of their points and lies between 0 and 9, and `signal_count` is their number. The recommendation and confidence are the ones for the score. |
| VvvSignals.ScoreSignalsMentions | venice_monitor/analysis/vvv_signals.py:139-171 | Each kind appears in the scored list iff its own condition holds: RSI below the threshold, the price action's drop or bounce, a volume spike. |
| VvvSignals.PriceActionScoreIsPoints | venice_monitor/analysis/vvv_signals.py:154-159 | The branch-by-branch scoring loop adds exactly the signals' points. |
| VvvSignals.SignalsCombine | venice_monitor/analysis/vvv_signals.py:135-171 | The three signal groups concatenate in emission order, and their points add up to the score. |
| VvvSignals.MentionsByGroup | venice_monitor/analysis/vvv_signals.py:139-171 | Each signal kind in the combined list comes from its own group only. |
| VvvSignals.DeepOversoldScoresThree | venice_monitor/analysis/vvv_signals.py:141-148 | An RSI below both the threshold and 20 alone scores 3. |
| VvvSignals.GenerateBuySignal | venice_monitor/analysis/vvv_signals.py:117-196 | Raises iff the price action raises. Otherwise it scores the RSI of the history and the 7-day price action (corrected: without the failing log line). |
| VvvSignals.RisingMarketReadsOversold | venice_monitor/analysis/vvv_signals.py:45-57 | A market that rose at every step, stored most recent first, reads RSI 0. The oversold signal alone then makes the call BUY or STRONG BUY. |
| VvvSignals.GenerateBuySignalAsWritten | venice_monitor/analysis/vvv_signals.py:198-203 | As written, any call that returns is a CONSIDER or a HOLD: a score of 3 or more raises in the log line. |
| VvvSignals.RisingMarketRaisesAsWritten | venice_monitor/analysis/vvv_signals.py:198-203 | On the steadily rising market, the function as written raises instead of returning its BUY. |
| Config.Split | venice_monitor/utils/config.py:76 | `key.split(".")` gives at least one piece and no piece contains a dot (`JoinSplit` and `SplitJoin` give the round trips). |
| Config.FirstDot | venice_monitor/utils/config.py:76 | The first '.' of a key is found where no earlier '.' occurs. |
| Config.JoinSplit | venice_monitor/utils/config.py:76 | Joining the parts of `key.split(".")` with dots gives back the key. |
| Config.SplitJoin | venice_monitor/utils/config.py:76 | Splitting dot-free, dot-joined parts gives back the parts. |
| Config.At | venice_monitor/utils/config.py:79-81 | The empty path names the document itself. A non-empty path is found only inside a mapping holding its first segment, and then it is the rest of the path found under that segment. |
| Config.Lookup | venice_monitor/utils/config.py:77-87 | The walk returns the value found under the path if it exists and is not None. It returns the default if a segment is missing, maps to None, or the walk meets a value that is not a mapping. |
| Config.Get | venice_monitor/utils/config.py:66-87 | `get` is the lookup of the key's dotted path, with the same two cases. |
| Config.FalsyValuesKept | venice_monitor/utils/config.py:82-87 | A stored 0, False, 0.0 or "" comes back as it is, not as the default. |
| Config.AtConcat | venice_monitor/utils/config.py:79-81 | Descending a longer path is descending its first part, then the rest. |
| Config.Property | venice_monitor/utils/config.py:89-132 | A property returns its default when the key is absent or holds None, and the stored value, unconverted, when present and not None. |
| Config.DefaultsWhenAbsent | venice_monitor/utils/config.py:89-132 | On an empty document, or one that is not a mapping, every property is its default: 300, 5.0, 0.25, False, "10.32.3.27", 8090 and the source lists. |
| Config.SetIn | venice_monitor/utils/config.py:55 | A successful `setdefault(...)[...] = v` chain leaves a mapping with the value under the path. The only failure is a non-mapping in the way. |
| Config.SetInKeepsSiblings | venice_monitor/utils/config.py:44-64 | An override leaves every path that branches off its own unchanged. |
| Config.BlockedPrefixFails | venice_monitor/utils/config.py:55 | If a proper prefix of the path leads to a non-mapping, the override raises. |
| Config.FailureHasBlockedPrefix | venice_monitor/utils/config.py:55 | Conversely, a failed override has such a blocking prefix. |
| Config.FreshAccepts | venice_monitor/utils/config.py:55 | Below a missing section every mapping is created fresh, so the override succeeds. |
| Config.UnblockedSucceeds | venice_monitor/utils/config.py:55-58 | An override whose path meets only mappings or nothing succeeds. |
| Config.PrefixesBecomeMappings | venice_monitor/utils/config.py:55 | After an override every proper prefix of its path is a mapping. |
| Config.ApplyEnvOverrides | venice_monitor/utils/config.py:44-64 | With no variable set, the document is unchanged. An unparsable port raises. A truthy BASE_RPC_URL is readable under `web3.base_rpc_url`. |
| Config.OverrideKeeps | venice_monitor/utils/config.py:47-64 | One `if value := os.getenv(...)` block keeps every path that branches off its own. |
| Config.OverrideMakesMappings | venice_monitor/utils/config.py:55 | After one block, the prefixes of its path are mappings if it fired and untouched if not. |
| Config.ApiKeysStage | venice_monitor/utils/config.py:47-51 | On a document without `api_keys`, the two key overrides succeed and keep `notifications` and `web3`. |
| Config.CaelumHostStage | venice_monitor/utils/config.py:54-55 | On a document without `notifications`, CAELUM_HOST sets the host and keeps `web3`. |
| Config.CaelumPortStage | venice_monitor/utils/config.py:57-60 | CAELUM_PORT then sets the port and keeps the host and `web3`. |
| Config.CaelumStage | venice_monitor/utils/config.py:53-60 | The two Caelum blocks together set host and port and keep `web3`. |
| Config.RpcStage | venice_monitor/utils/config.py:63-64 | BASE_RPC_URL on a document without `web3` succeeds and keeps the Caelum host and port. |
| Config.CaelumKeysSplit | venice_monitor/utils/config.py:125-132 | The keys the Caelum properties read split into the paths the overrides write. |
| Config.OverridesOnFreshSections | venice_monitor/utils/config.py:44-64 | On a mapping without those sections, all overrides succeed (unless the port is garbage), and `caelum_host`/`caelum_port` read back the environment's values. |
| Config.OverrideIf | venice_monitor/utils/config.py:47-64 | A block leaves the document as it is when an earlier block raised or its variable is unset or empty. Otherwise, when it succeeds, the variable's text is stored under the block's path. The only exception it can raise is a non-mapping in the way. |
| Config.PortOverride | venice_monitor/utils/config.py:57-60 | An unset CAELUM_PORT leaves the document as it is, an unparsable one raises, and a number is stored under `notifications.caelum.port` as an integer when the path is clear. |
| CaelumNotifier.BuildRequest | venice_monitor/notifications/caelum_notifier.py:46-58 | The payload has jsonrpc "2.0", method "send_notification", id 1, category "venice_monitor", and the priority and device given. Its data is `{}` when none is given. |
| CaelumNotifier.SendNotification | venice_monitor/notifications/caelum_notifier.py:24-88 | It never raises. It returns True iff the daemon replied without an "error" member; timeouts, refusals and other failures give False. |
| CaelumNotifier.ArbitrageAlert | venice_monitor/notifications/caelum_notifier.py:90-116 | Priority high iff abs(spread_percent) > 10, else medium. The alert goes to all devices with the analysis as data. |
| CaelumNotifier.DecisiveArbitrageAlertsAreHigh | venice_monitor/notifications/caelum_notifier.py:112 | A HIGH-confidence MINT & SELL and a below −75% anomaly are both sent at high priority. |
| CaelumNotifier.MomentumAlert | venice_monitor/notifications/caelum_notifier.py:118-146 | Priority high iff score ≥ 5, else medium. The alert goes to all devices with the analysis as data (corrected: without the failing format). |
| CaelumNotifier.MomentumPriorityMatchesRecommendation | venice_monitor/notifications/caelum_notifier.py:142 | A momentum alert is high priority exactly for a STRONG BUY. |
| CaelumNotifier.MomentumAlertAsWritten | venice_monitor/notifications/caelum_notifier.py:137 | As written the helper always raises on its RSI format. |
| CaelumNotifier.MomentumAlertNeverSentAsWritten | venice_monitor/notifications/caelum_notifier.py:137 | Even a STRONG BUY, which should go out at high priority, is never sent. |
| CaelumNotifier.Discount | venice_monitor/notifications/caelum_notifier.py:162 | The discount times the value is (value − price)·100. A zero value raises. |
| CaelumNotifier.DiscountOfValuation | venice_monitor/notifications/caelum_notifier.py:162 | For an analysed valuation the discount is (1 − price/value)·100, positive iff undervalued. |
| CaelumNotifier.NamesStrongBuyIff | venice_monitor/notifications/caelum_notifier.py:172 | `"STRONG BUY" in buy_signal` holds exactly for the STRONG BUY verdict. |
| CaelumNotifier.ValuationAlert | venice_monitor/notifications/caelum_notifier.py:148-176 | It raises iff the value is 0. Otherwise priority is high iff STRONG BUY, else medium, sent to all devices with the analysis as data. |
| CaelumNotifier.CrossExchangeAlert | venice_monitor/main.py:169-171 | The cross-exchange notification is high priority, to all devices, with the opportunity as data. |
| Monitor.Sent | venice_monitor/main.py:129-171 | Counting a topic's notifications never exceeds the log's length. |
| Monitor.SentConcat | venice_monitor/main.py:129-171 | Counts add up over concatenated logs. |
| Monitor.Send | venice_monitor/notifications/caelum_notifier.py:73-78 | A notification is recorded as delivered iff the reply carried no error. |
| Monitor.ChooseMintRate | venice_monitor/main.py:90-95 | The live rate is used and saved as not estimated iff it is truthy. Otherwise the estimate is used and saved as estimated. The chosen rate is never 0. |
| Monitor.PricesAvailable | venice_monitor/main.py:75-81 | The check goes past its first test iff both trackers return a price. A returned median is positive, so the falsy test rejects only None. |
| Monitor.AnalysesOf | venice_monitor/main.py:99-126 | Past the first test both prices are positive and the rate is nonzero, and the valuation's value is nonzero. The prices are the two trackers' medians, and the momentum analysis runs iff at least 15 prices are stored. |
| Monitor.MomentumOf | venice_monitor/main.py:140-150 | There is no momentum analysis iff fewer than 15 prices are stored. A signal it yields is for the current price, with the RSI of the stored history. |
| Monitor.ArbitrageStep | venice_monitor/main.py:129-134 | The arbitrage alert goes out iff the notifier is on, `should_alert` holds, and the recommendation differs from the last alerted. The state then records it whatever the delivery. Otherwise nothing changes. |
| Monitor.ValuationStep | venice_monitor/main.py:137-138 | One valuation alert per check with a BUY or STRONG BUY verdict and the notifier on, without de-duplication. It raises only on a zero value. |
| Monitor.MomentumStep | venice_monitor/main.py:140-156 | The momentum alert goes out iff there is a signal, the notifier is on, and it is a BUY or STRONG BUY different from the last sent. Only then is it remembered. It raises iff `generate_buy_signal` does. |
| Monitor.CrossExchangeStep | venice_monitor/main.py:158-171 | One high-priority notification whenever an opportunity exists and the notifier is on, without de-duplication. |
| Monitor.WritesSendNothing | venice_monitor/main.py:86-95 | Database writes are not notifications. |
| Monitor.SavedSendsNothing | venice_monitor/main.py:86-95 | The three records saved first add no notification. |
| Monitor.AfterSaves | venice_monitor/main.py:104-171 | The steps after the saves raise iff the valuation alert is due on a zero value or the momentum analysis raises. A raising check leaves the last VVV signal as it was. |
| Monitor.AfterSavesSends | venice_monitor/main.py:104-171 | After the saves, each alert goes out at most once and exactly when due. A momentum exception skips the cross-exchange check. Each state field moves to the alerted recommendation and only then. |
| Monitor.CheckPrices | venice_monitor/main.py:71-171 | Without both prices the check returns normally, saving and sending nothing and keeping its state. Otherwise it saves the VVV median first and the DIEM median second. An exception needs at least 15 stored prices. |
| Monitor.CheckPricesSends | venice_monitor/main.py:71-171 | A check that got both prices saves VVV, DIEM and the rate first, then acts as `AfterSavesSends` states. |
| Monitor.AbortsIffNoPrice | venice_monitor/main.py:76-81 | The check saves and sends nothing iff a tracker got no usable quote. It then returns normally with the state unchanged. |
| Monitor.SavedRecords | venice_monitor/main.py:86-95 | The records hold the two medians and the rate with its provenance. A live non-zero rate is saved as live, and a missing or zero rate as the estimate, estimated. After a failed request, the estimate is saved as live. |
| Monitor.ValuationAlertIff | venice_monitor/main.py:124-138 | A valuation alert goes out iff both prices are available, the notifier is on, and DIEM is below 1460, however often it went out before. |
| Monitor.StateIgnoresDeliveries | venice_monitor/main.py:131-134 | The state, the exception and the alert counts do not depend on whether deliveries succeeded, so a lapsed alert is not retried. |
| Monitor.InitialCoherent | venice_monitor/main.py:68-69 | The initial state is coherent. |
| Monitor.CheckPricesKeepsCoherent | venice_monitor/main.py:131-156 | Every check keeps the state coherent: the last arbitrage alert is never MONITOR, and the last VVV signal is BUY or STRONG BUY. |
| Monitor.RepeatedCheckIsQuiet | venice_monitor/main.py:131-156 | Repeating a check on the same answers sends no arbitrage or momentum alert and keeps the state. The valuation and cross-exchange alerts repeat. |
| Monitor.QuietCheckKeepsState | venice_monitor/main.py:131-156 | A check that sends neither de-duplicated alert leaves the state as it was. So a recommendation that lapses without an alert does not reset the de-duplication. |
| Monitor.MomentumGateSuffices | venice_monitor/main.py:145-150 | Past the 15-price gate the RSI is never None and the price action is never INSUFFICIENT_DATA. |

## Left out

- Network, database, socket and file I/O:
  - the HTTP clients (`exchanges/coingecko.py`, `exchanges/coinmarketcap.py`) and the `requests` call for the mint rate;
  - SQLite storage (`storage/price_history.py`);
  - the Caelum socket;
  - YAML and dotenv loading.

  Each is replaced by its answer as an input. The history read back from the database is an input, so the price just saved is not fed back into it.
- The `run` loop, its sleep, `KeyboardInterrupt` and logger setup: process plumbing. A raised check is reported as `raised`.
- Log lines, notification titles and messages, and the valuation rationale: formatted text. The two format strings that raise are the exception, kept as the Findings below.
- Floating point: the model uses exact reals. pandas' infinities are resolved to the values they produce (RSI 100), and 0/0 is a NaN case of its own.
- `math.exp` is a parameter: any positive, strictly increasing function with exp(0) = 1.
- `Config`: the result of `int(port)` is an input (`PortVariable`). Number parsing is not modelled.
- `MintCalculator.CurrentMintRate`: bodies that make `get_current_mint_rate` raise an exception it does not catch are not modelled (its handlers take only `RequestException`, `KeyError` and `ValueError`). These are a JSON body that is not an object (`[]`, `"x"`, `3`: `data.get` raises AttributeError), and a `mint_rate` holding JSON `null`, a list or an object (`float(...)` raises TypeError). In `check_prices` such an exception would escape after the VVV and DIEM prices are saved, before the mint rate is. `MintRateResponse` has no case for them: `Malformed` stands for a body that is not JSON or a `mint_rate` string that is not a number, and `Body(None)` for a missing field.
- `scripts/manual_check.py`: a printing command-line script outside the engine.
- `VvvSignals.CalculateRsi` requires `period >= 1` and `VvvSignals.AnalyzePriceAction` requires `lookback >= 1`. The code only ever uses 14 and 7.
- `Config.ApplyEnvOverrides`: its own contract covers only the unset, garbage-port and RPC-URL cases. Sibling preservation and the per-block effects are in `SetInKeepsSiblings`, `OverrideKeeps` and `OverridesOnFreshSections`. The last of these assumes the document has no `api_keys`, `notifications` or `web3` section yet.
- `PriceTracker.DetectCrossExchangeArbitrage`: its own contract states only the fewer-than-two case. What an opportunity holds is stated on `OpportunityFrom`, which it applies to the fresh poll.
- `Monitor.AnalysesOf`: states positivity, the two prices and when momentum runs. Each analysis is the named function of the chosen inputs, and those functions carry the contracts.

Behaviour that follows the code where the repository's own description says otherwise:

- `get_current_mint_rate` answers a failed request with the estimate itself. So `check_prices` saves that estimate with `estimated=False` (`Monitor.SavedRecords`).
- The RSI is a plain rolling mean, not Wilder smoothing. It is taken on the most-recent-first history, so a rising market reads as oversold (`VvvSignals.RisingMarketReadsOversold`).
- `analyze_valuation` always values at 25% and 50%, ignoring the configured rate. Its HOLD verdict cannot occur (`IntrinsicValue.AnalyzeValuation`).

## Findings

| source | as written | input that shows it | evidently intended | confidence | as-written member | corrected member |
|---|---|---|---|---|---|---|
| venice_monitor/analysis/vvv_signals.py:198-203 | The warning for a score ≥ 3 formats the RSI as `{rsi:.1f if rsi else 'N/A'}`. Everything after the colon is taken as the format spec, which float and None both reject, so `generate_buy_signal` raises instead of returning its BUY or STRONG BUY. In `check_prices` this also skips the momentum alert and the cross-exchange check. | A VVV history of 15 or more positive prices strictly decreasing in list order (a market rising every day). The RSI is 0, the score is at least 3, and the call raises. | The RSI is printed with one decimal, or "N/A", and the analysis is returned. | not executed; follows from Python's format-spec rules | VvvSignals.GenerateBuySignalAsWritten | VvvSignals.GenerateBuySignal |
| venice_monitor/notifications/caelum_notifier.py:137 | `send_vvv_buy_signal` builds its message with the same `{rsi:.1f if rsi else 'N/A'}` field, so it raises before anything is sent. | Any analysis, e.g. a STRONG BUY with score 5. | The alert is sent at the priority its score selects. | not executed; follows from Python's format-spec rules | CaelumNotifier.MomentumAlertAsWritten | CaelumNotifier.MomentumAlert |

The corrected versions are what `Monitor` uses:

- `VvvSignals.RisingMarketRaisesAsWritten` exhibits the first defect. `VvvSignals.RisingMarketReadsOversold` proves the intended BUY for the same input.
- `CaelumNotifier.MomentumAlertNeverSentAsWritten` exhibits the second. `CaelumNotifier.MomentumAlert` proves the intended priority.
