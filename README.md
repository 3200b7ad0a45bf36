# Chain audit dashboard: a verified model

This project models the core of a blockchain transaction-monitoring tool in
Dafny. The tool has two halves.

- **Dashboard (React).** It loads a small fixed network of wallets and
  transactions. It draws them as a circular graph and filters them by a
  search box and by a selected wallet. It shows headline statistics, and it
  keeps a dismissable alert feed in a floating panel.
- **Analytics service (Flask).** It computes network metrics: net money
  flow, degree centrality, density and a Gini coefficient. It detects
  suspicious patterns and turns them into numbered alerts. It also traces
  funds breadth-first from an address, scores the risk of an address, and
  summarises money flow, regional risk and network health.

Each source file has its own module or modules:

| module | file | form |
|---|---|---|
| `App` (dashboard.dfy) | src/App.jsx | class `Dashboard` holding the page's ten state slots |
| `Pipeline` | src/App.jsx | functions for the derived views: search, wallet filter, stats, chart, badge |
| `NetworkGraph` | src/components/NetworkGraph.jsx | functions: layout, link resolution, highlighting, clicks |
| `AlertsPanel` | src/components/AlertsPanel.jsx | class `Panel` with its three state slots, plus the derived filter and counts |
| `SampleData` | src/utils/blockchainDataGenerator.js | the fixed dataset as values, and lemmas about it |
| `NetworkMetrics`, `Gini`, `Patterns`, `AlertGeneration` | backend/app.py | loops as methods, proved equal to specification functions |
| `FundTracing` | backend/app.py | the BFS as a `while` loop over a queue, with invariants |
| `RiskAnalysis`, `FlowAnalysis`, `Geography`, `NetworkHealth` | backend/app.py | scoring as methods or functions, with their properties |

Supporting modules:

- `Wrappers` holds `Option` and `Result`.
- `Seqs` holds filter, map, sum and count.
- `Dicts` models a Python dict as an insertion-ordered association list.
- `Grouping` models `defaultdict(list)` and `defaultdict(int)` filled by a loop.
- `Sorting` is a stable insertion sort by key.
- `Text` covers ASCII lower-casing, substring search and decimal numerals.
- `Entities` holds the records.

Modelling choices:

- **Numbers.** Amounts, timestamps and ratios are `real`. Counts and scores
  are `nat`.
- **Python dicts** keep insertion order. So every dictionary the service builds is a
  `seq<(key, value)>`. Writing to `d[k]` replaces the entry in place, or
  appends it when the key is new.
- **Clock.** The clock (`int(time.time())`) is a parameter `now`, and so is the
  dashboard's load time.
- **Randomness.** The random clustering coefficient is a parameter.
- **Trigonometry.** The graph's cosine and sine are a caller-supplied function
  `unit` from a turn fraction to a point.
- **Set iteration order** in `analyze_money_flow` is a parameter `order`:
  any enumeration of the address set.
- **Inputs of the backend routes.** The fund-tracing and risk routes read the
  backend's own generated dataset. Here they take the transactions and nodes
  as parameters.

Where the code and its evidently intended behaviour differ, the model
follows the code:

- The dashboard's statistics and pie chart are computed over the
  search result, not over the wallet-filtered list (`Pipeline.ComputeStats`,
  `App.StatsIgnoreSelection`).
- A click on a drawn link passes
  `link.transaction` to a handler that forwards its `.transaction` field.
  That field is undefined, so a link click clears the selected transaction
  instead of opening it (`NetworkGraph.LinkClickSelection`,
  `App.Dashboard.ClickLink`).
- Mixer activity is detected by `detect_suspicious_patterns`, but
  `generate_alerts` raises no alert for it (`AlertGeneration.AlertsNumbered`
  counts only the other three kinds).
- A link whose source or target is not a node would be expected to be left
  out of the drawing. The code instead dereferences the missing node and
  throws (src/components/NetworkGraph.jsx:38-42), so the model's
  `NetworkGraph.DrawLinks` yields no drawing at all (`None`) for such a
  network.

## Model

| member | source | states |
|---|---|---|
| Pipeline.FilteredTransactions | src/App.jsx:71-75 | no transactions before the data is loaded; afterwards the search filter over the loaded transactions |
| Pipeline.TextFilterExactly | src/App.jsx:71-75 | a transaction survives the search iff the lower-cased query occurs in its lower-cased source, target or id; survivors keep their order |
| Pipeline.EmptyQueryKeepsAll | src/App.jsx:71-75 | the empty query keeps every transaction |
| Pipeline.TextFilterIdempotent | src/App.jsx:71-75 | searching the result again with the same query changes nothing |
| Pipeline.WalletFilterExactly | src/App.jsx:77-79 | with a wallet selected (non-null, non-empty), exactly the searched transactions whose source or target is that wallet, in order; otherwise the search result unchanged |
| Pipeline.ComputeStats | src/App.jsx:81-86 | all-zero stats before loading; afterwards the volume, count, mean and flagged count of the search result, with flagged at most total |
| Pipeline.ChartData | src/App.jsx:133-136 | no slices before loading; afterwards two non-negative slices adding up to the search result's size, the second being the flagged count |
| Pipeline.AlertBadge | src/App.jsx:209-213 | hidden iff there are no alerts, `9+` above nine, else the single digit of the count |
| App.Dashboard.constructor | src/App.jsx:36-45 | the ten initial slot values |
| App.Dashboard.SetSearchQuery | src/App.jsx:202 | only the query changes |
| App.Dashboard.SelectWallet | src/App.jsx:123 | only the selected wallet changes |
| App.Dashboard.ResetSelection | src/App.jsx:112 | the selection is cleared and the detail list becomes the whole search result |
| App.Dashboard.SelectTransaction | src/App.jsx:124 | only the selected transaction changes |
| App.Dashboard.CloseDetail | src/App.jsx:344 | the selected transaction is cleared and nothing else changes |
| App.Dashboard.ClickNode | src/components/NetworkGraph.jsx:15-17 | a node click selects that node's id and nothing else |
| App.Dashboard.ClickLink | src/components/NetworkGraph.jsx:19-21 | a link click clears the selected transaction, because the forwarded field is undefined |
| App.Dashboard.HandleAlertAction | src/App.jsx:93-97 | `dismiss` removes exactly the alerts with that id; any other action changes nothing |
| App.Dashboard.Navigate | src/App.jsx:47-49 | the page changes; entering the dashboard from another page also starts loading |
| App.Dashboard.FinishLoad | src/App.jsx:50-66 | the data is stored, the alerts are replaced only when the service answered, and loading ends |
| App.Dashboard.SetActiveTab | src/App.jsx:233-245 | only the active tab changes |
| App.Dashboard.SetRiskAnalysisOpen | src/App.jsx:178 | only the risk panel flag changes |
| App.Dashboard.SetFundTracingOpen | src/App.jsx:186 | only the fund-tracing panel flag changes |
| App.StatsIgnoreSelection | src/App.jsx:81-86 | selecting a wallet or a transaction never changes the stats or the search result (this holds by construction: the stats are computed from the search result alone, with no selection argument) |
| NetworkGraph.AngleFractionsDistinct | src/components/NetworkGraph.jsx:24 | distinct indices below N get distinct turn fractions in [0, 1) |
| NetworkGraph.AngleFractionsEvenlySpaced | src/components/NetworkGraph.jsx:24 | consecutive nodes are 1/N of a turn apart |
| NetworkGraph.PositionIgnoresId | src/components/NetworkGraph.jsx:23-28 | a position depends on the index and node count, never on the id |
| NetworkGraph.PositionOnCircle | src/components/NetworkGraph.jsx:23-28 | every node lies on the circle of radius 300 about (300, 200) |
| NetworkGraph.PositionsDistinct | src/components/NetworkGraph.jsx:23-28 | different indices are drawn at different points when the trigonometry is one-to-one on a turn |
| NetworkGraph.FindNode | src/components/NetworkGraph.jsx:38-41 | the index of the first node with that id, or none exactly when no node has it |
| NetworkGraph.FindNodeUnique | src/components/NetworkGraph.jsx:38-41 | with unique ids a node's id resolves to its own index |
| NetworkGraph.StrokeWidthMonotone | src/components/NetworkGraph.jsx:56 | a larger amount never draws a thinner link |
| NetworkGraph.DrawLink | src/components/NetworkGraph.jsx:38-58 | a link can be drawn iff both its endpoints name nodes |
| NetworkGraph.DrawLinks | src/components/NetworkGraph.jsx:37-62 | the drawing succeeds iff every link resolves, and then it has one drawn link per link, in order |
| NetworkGraph.DrawNodes | src/components/NetworkGraph.jsx:65-67 | one drawn node per node |
| NetworkGraph.DrawnLinksFaithful | src/components/NetworkGraph.jsx:38-58 | each drawn link runs between its endpoints' positions; it is highlighted iff the selected wallet is its source or target |
| NetworkGraph.DrawnNodesFaithful | src/components/NetworkGraph.jsx:65-67 | node i sits at position i and is highlighted iff it is the selected wallet |
| NetworkGraph.NodeClickSelection | src/components/NetworkGraph.jsx:15-17 | a node click reports that node's id |
| NetworkGraph.LinkClickSelection | src/components/NetworkGraph.jsx:19-21 | what a drawn link's click forwards is undefined, though the handler would forward the transaction of a link object |
| AlertsPanel.FilterBySeverityExactly | src/components/AlertsPanel.jsx:112-115 | `all` shows the whole list; any other filter shows exactly the alerts of that severity, in order |
| AlertsPanel.CountsAtMostTotal | src/components/AlertsPanel.jsx:117-121 | the three counts add up to the list minus the alerts of any other severity, so never more than the list |
| AlertsPanel.Panel.constructor | src/components/AlertsPanel.jsx:97-99 | the initial alerts, filter `all`, not minimised |
| AlertsPanel.Panel.Seed | src/components/AlertsPanel.jsx:101-103 | a new feed replaces the local list and leaves the filter and minimise flag |
| AlertsPanel.Panel.Dismiss | src/components/AlertsPanel.jsx:105-110 | exactly the alerts with that id go, the rest keep their order; one fewer when ids are unique and the id is present; the dismissal is reported iff a callback exists |
| AlertsPanel.Panel.ClearAll | src/components/AlertsPanel.jsx:224 | the local list is emptied; nothing else changes |
| AlertsPanel.Panel.SetFilter | src/components/AlertsPanel.jsx:174 | only the filter changes |
| AlertsPanel.Panel.SetMinimized | src/components/AlertsPanel.jsx:131-161 | only the minimise flag changes |
| Entities.RemoveAlertExactly | src/App.jsx:95 | dismissal removes exactly the alerts with that id and keeps the others in order |
| Entities.RemoveAbsentAlert | src/components/AlertsPanel.jsx:106 | dismissing an absent id changes nothing |
| Entities.RemovePresentAlert | src/components/AlertsPanel.jsx:106 | with unique ids, dismissing a present id removes exactly one alert |
| SampleData.LinksOf | src/utils/blockchainDataGenerator.js:96-100 | one link per transaction, with the same endpoints and carrying that transaction |
| SampleData.IdsUnique | src/utils/blockchainDataGenerator.js:3-94 | node ids are pairwise distinct, and so are transaction ids |
| SampleData.LinksResolve | src/utils/blockchainDataGenerator.js:96-100 | every link endpoint is a node |
| SampleData.GraphDrawable | src/utils/blockchainDataGenerator.js:102-106 | the generated network can always be drawn |
| SampleData.AmountsAndFlags | src/utils/blockchainDataGenerator.js:13-94 | every amount is positive, and exactly tx_007 to tx_009 are flagged |
| SampleData.GeneratedVolume | src/utils/blockchainDataGenerator.js:13-94 | the ten transactions move 841.3 |
| SampleData.StatsFromTotals | src/App.jsx:81-86 | ten transactions moving 841.3, three of them flagged, give stats (841.3, 10, 84.13, 3) |
| SampleData.DefaultStats | src/App.jsx:81-86 | the empty search over the generated data shows (841.3, 10, 84.13, 3) |
| NetworkMetrics.MoneyFlow | backend/app.py:95-98 | the money-flow loop computes the specification ledger |
| NetworkMetrics.ApplyTxGet | backend/app.py:95-98 | one transaction moves its amount from the source's entry to the target's |
| NetworkMetrics.ApplyTxConserves | backend/app.py:95-98 | one step keeps the keys distinct and the total unchanged |
| NetworkMetrics.FlowConserved | backend/app.py:95-98 | the net flows of all addresses add up to 0, and no key occurs twice |
| NetworkMetrics.FlowIsNet | backend/app.py:95-98 | an address's flow is what it received minus what it sent |
| NetworkMetrics.FlowKeys | backend/app.py:95-98 | exactly the addresses that sent or received have an entry |
| NetworkMetrics.Degree | backend/app.py:105-110 | a degree is at most twice the number of transactions |
| NetworkMetrics.Centrality | backend/app.py:105-110 | a centrality lies in [0, 2] and is 0 without transactions |
| NetworkMetrics.DegreeCentrality | backend/app.py:105-110 | the centrality loop computes the specification ledger |
| NetworkMetrics.CentralityGet | backend/app.py:105-110 | each node's entry is its centrality |
| NetworkMetrics.CentralityKeys | backend/app.py:105-110 | the keys are exactly the node ids |
| NetworkMetrics.CentralityUnique | backend/app.py:105-110 | no key occurs twice |
| NetworkMetrics.EntryForMeaning | backend/app.py:151-158 | an id yields an entry iff some node has it, and the entry carries that node's name and type and the dictionary value |
| NetworkMetrics.TopCentralMeaning | backend/app.py:146-159 | at most `top_n` entries, largest first, each a dictionary entry naming a node; an entry naming a node that is not listed is no larger than any listed one |
| NetworkMetrics.AverageValue | backend/app.py:91-92 | 0 without transactions, else the mean amount |
| NetworkMetrics.Density | backend/app.py:117 | 0 for at most one node, else the edge count over the ordered node pairs |
| NetworkMetrics.CalculateNetworkMetrics | backend/app.py:88-123 | counts, volume, mean, density, the zero-sum money flow, its Gini coefficient, the top three central nodes and the patterns |
| Gini.Abs | backend/app.py:130 | a non-negative value equal to the input or its negation |
| Gini.MagnitudesMeaning | backend/app.py:130 | the sorted magnitudes are a non-negative, ascending permutation of the absolute values |
| Gini.PrefixSums | backend/app.py:135-139 | one running total per value |
| Gini.PrefixSumsAt | backend/app.py:135-139 | running total i is the sum of the first i + 1 values |
| Gini.CumulativeSums | backend/app.py:135-139 | the `cumsum` loop computes the running totals |
| Gini.CalculateGini | backend/app.py:125-144 | the method computes the coefficient specification |
| Gini.LastPrefixSum | backend/app.py:141-144 | the last running total is the total |
| Gini.AbsTotalZero | backend/app.py:141-142 | the magnitudes total 0 iff every value is 0 |
| Gini.GiniZero | backend/app.py:127-142 | no values, or all-zero values, give 0 |
| Gini.GiniEqual | backend/app.py:125-144 | values that all share one non-zero magnitude give 0: perfect equality |
| Patterns.FirstWindow | backend/app.py:181-190 | the first start whose five-transaction window spans at most 600 s, no earlier one does; none iff no window qualifies |
| Patterns.FindWindow | backend/app.py:181-190 | the loop with its `break` finds that first window |
| Patterns.WindowEntry | backend/app.py:183-189 | an entry exists iff a window qualifies; it names the wallet and counts five |
| Patterns.WindowEntryMeaning | backend/app.py:183-189 | the entry's span and total are those of the first qualifying window |
| Patterns.RapidFor | backend/app.py:177-190 | a wallet's transactions yield an entry iff there are at least five and a window of the time-sorted list qualifies |
| Patterns.DetectRapid | backend/app.py:176-190 | the loop over the wallet groups computes the specification list |
| Patterns.RapidWallets | backend/app.py:176-190 | a wallet is reported iff its group yields an entry |
| Patterns.RapidOnePerWallet | backend/app.py:176-190 | with distinct group keys no wallet is reported twice |
| Patterns.RapidRule | backend/app.py:172-190 | wallet w is reported iff the list of transactions it sent yields an entry, and every entry reported for w is that entry |
| Patterns.RapidOncePerWallet | backend/app.py:172-190 | the rapid rule reports no wallet twice |
| Patterns.HighValueRule | backend/app.py:193-200 | a transaction is reported iff its amount is at least 100 |
| Patterns.BlacklistHitMeaning | backend/app.py:204-211 | the entry names a listed end (the source when both are listed) with its type and severity |
| Patterns.BlacklistRule | backend/app.py:203-211 | one entry per transaction touching a listed address, in order |
| Patterns.MixerIdsExactly | backend/app.py:214 | the mixer ids are exactly the ids of nodes of type `mixer` |
| Patterns.MixerRule | backend/app.py:214-221 | one entry per transaction with an end at a mixer, in order, naming the source when it is one and the target otherwise |
| Patterns.DetectHighValue | backend/app.py:193-200 | the high-value loop computes its specification |
| Patterns.DetectBlacklisted | backend/app.py:203-211 | the blacklist loop computes its specification |
| Patterns.DetectMixer | backend/app.py:215-221 | the mixer loop computes its specification |
| Patterns.DetectSuspiciousPatterns | backend/app.py:161-223 | the four loops together compute the pattern specification |
| AlertGeneration.AlertsSpec | backend/app.py:233-267 | one alert per rapid, high-value and blacklist finding |
| AlertGeneration.AlertsFor | backend/app.py:233-267 | the three loops compute the alert specification |
| AlertGeneration.GenerateAlerts | backend/app.py:225-269 | the alerts of the detected patterns |
| AlertGeneration.AlertsNumbered | backend/app.py:236-248 | alerts are numbered `alert_1` to `alert_k` in list order, so ids are unique, and all carry the same timestamp |
| AlertGeneration.AlertBlocks | backend/app.py:234-267 | rapid alerts come first and are high, then large ones, which are medium, then blacklist ones with the listed severity; each carries its finding |
| AlertGeneration.BlacklistAlertSeverity | backend/app.py:258-267 | a blacklist alert's severity is that of the listed address |
| FundTracing.Outgoing | backend/app.py:371-377 | the edges of an address are ledger transactions sent by it |
| FundTracing.TracePaths | backend/app.py:380-407 | every recorded path is a ledger walk from the start with 1 to `max_depth` hops, whose amounts add up to its total; nothing for `max_depth <= 0`; otherwise the first records are the start's own transactions, in order |
| FundTracing.Expand | backend/app.py:391-405 | the new records are exactly one path per followed edge (target unvisited, or depth below 2), in ledger order; exactly those paths are queued, one level deeper, when that depth is below `max_depth`, and nothing is queued otherwise; every record is a walk from the start and every queue entry is valid |
| FundTracing.FollowedMapped | backend/app.py:391-405 | the paths and queue entries of the followed edges are the outgoing transactions filtered by "target unvisited, or depth below 2", each extended by one hop |
| FundTracing.QueueProgress | backend/app.py:384-405 | a turn keeps the queue layered by depth and lowers the termination measure |
| FundTracing.ReportMeaning | backend/app.py:410-420 | exactly min(paths, 10) paths, largest first, each recorded, and a path left out is no larger than any listed one; the summary counts all, its maximum is the first listed amount, is attained and bounds the mean; 0 and 0 without paths |
| FundTracing.TraceFunds | backend/app.py:371-420 | the response is the report over all recorded paths, each a walk from the start of at most `max_depth` hops: `totalPaths` counts them, exactly min(paths, 10) are listed, largest first, and none left out is larger than a listed one; maximum and average are 0 without paths, otherwise the maximum is the first listed amount, attained, and bounds the average; nothing for `max_depth <= 0`; otherwise every transaction leaving the start is counted and none exceeds the maximum |
| RiskAnalysis.ScoreAddress | backend/app.py:438-476 | the capped sum of the factor weights, and the factor messages in check order |
| RiskAnalysis.AnalyzeRisk | backend/app.py:423-503 | `Address not found` iff no node has the address; otherwise the report for the first such node |
| RiskAnalysis.ScoreBounds | backend/app.py:476 | the score lies in [0, 100] and equals the raw sum below the cap |
| RiskAnalysis.ScoreFloors | backend/app.py:441-476 | blacklist alone gives at least 60, a risky type at least 50, low reputation at least 40, and blacklist with a risky type gives 100 |
| RiskAnalysis.CleanAddress | backend/app.py:438-530 | a reputable, ordinary, unlisted address without large or flagged transactions scores 0, LOW, with no factors and three recommendations |
| RiskAnalysis.ScoreMonotone | backend/app.py:463-476 | more large or flagged transactions never lower the score |
| RiskAnalysis.LevelThresholds | backend/app.py:479-487 | HIGH iff at least 70, MEDIUM iff in [40, 70), LOW iff below 40 |
| RiskAnalysis.RecommendationTiers | backend/app.py:505-530 | four, four or three recommendations by level, the high tier first advising against any transaction |
| RiskAnalysis.SummaryMeaning | backend/app.py:461-501 | the summary counts exactly the address's transactions, flagged and high-value among them, and their volume |
| RiskAnalysis.FactorsMeaning | backend/app.py:441-473 | at most five messages, naming the listed type and the risky node type; none iff the raw score is 0 |
| FlowAnalysis.AccumulateFlows | backend/app.py:617-619 | the loop computes the inflow and outflow specifications |
| FlowAnalysis.InflowIsReceived | backend/app.py:617-619 | an address's inflow is the volume it received |
| FlowAnalysis.OutflowIsSent | backend/app.py:617-619 | an address's outflow is the volume it sent |
| FlowAnalysis.InflowKeys | backend/app.py:617-619 | the inflow has an entry exactly for the addresses that received |
| FlowAnalysis.OutflowKeys | backend/app.py:617-619 | the outflow has an entry exactly for the addresses that sent |
| FlowAnalysis.FlowTotals | backend/app.py:617-619 | both sides are dictionaries that each total the volume |
| FlowAnalysis.TouchMeaning | backend/app.py:625 | reading a missing key inserts a zero, which changes no value and no total |
| FlowAnalysis.TouchAllMeaning | backend/app.py:622-626 | after the net-flow loop each side has an entry for every address and keeps its total |
| FlowAnalysis.NetSpecGet | backend/app.py:622-626 | an address's net flow is its inflow minus its outflow |
| FlowAnalysis.NetSpecKeys | backend/app.py:622-626 | the net flow lists exactly the addresses, in iteration order |
| FlowAnalysis.NetFlow | backend/app.py:622-626 | the loop computes the net flow and the touched sides |
| FlowAnalysis.ConcentrationBounds | backend/app.py:640-656 | with non-negative amounts every index lies in [0, 1], and a single-address side has index 1 |
| FlowAnalysis.ConcentrationCases | backend/app.py:640-656 | the plain 0 iff a side is empty; division by zero iff a non-empty side totals 0 |
| FlowAnalysis.TopFiveMeaning | backend/app.py:629-630 | min(entries, 5) entries, largest first, each from the dictionary; an entry not listed is no larger than any listed one |
| FlowAnalysis.AnalyzeMoneyFlow | backend/app.py:612-638 | an error iff there are transactions whose volume is 0; otherwise the volume, the net flow per address, the top five of each side and the concentration |
| FlowAnalysis.FlowSides | backend/app.py:612-638 | after the net-flow loop each side is empty iff there are no transactions, and totals the volume |
| FlowAnalysis.TopAmounts | backend/app.py:629-630 | each listed receiver's amount is what it received, and each sender's what it sent |
| Geography.TypesOfRegion | backend/app.py:578-592 | a region's type table tallies the types of that region's nodes alone |
| Geography.TypesKeys | backend/app.py:578-592 | the type table lists regions in the order the count table does |
| Geography.CalculateRiskByRegion | backend/app.py:594-610 | the grouping loop and comprehension compute the regional risk specification |
| Geography.RiskByRegionMeaning | backend/app.py:594-610 | each region counts its nodes, at least one, and holds the mean of their risks |
| Geography.RiskByRegionKeys | backend/app.py:594-610 | the regions are those of the count table, in order, and exactly those some node is in |
| Geography.RegionRiskBounds | backend/app.py:594-610 | with reputations in [0, 1] each regional average risk lies in [0, 100] |
| Geography.AnalyzeGeographicDistribution | backend/app.py:578-592 | the one loop fills the count and type tables; the risk table is added |
| Geography.DistributionMeaning | backend/app.py:578-610 | the three tables list the same regions in the same order; a region's count is its number of nodes, and its type table counts them per type |
| NetworkHealth.CalculateNetworkHealth | backend/app.py:658-675 | division by zero iff there are no transactions or no nodes |
| NetworkHealth.FlaggedRatioBounds | backend/app.py:664 | the flagged ratio lies in [0, 1]; it is 0 iff nothing is flagged and 1 iff everything is |
| NetworkHealth.AverageReputationBounds | backend/app.py:665 | with reputations in [0, 1] the mean lies in [0, 1] |
| NetworkHealth.HealthBounds | backend/app.py:658-675 | the score and the flagged percentage lie in [0, 100] |
| NetworkHealth.HealthScoreMonotone | backend/app.py:668 | more flagged never raises the score; better reputation never lowers it |
| NetworkHealth.HealthLevelMonotone | backend/app.py:674 | a higher score never means a higher risk level |
| NetworkHealth.HealthExtremes | backend/app.py:658-675 | with nothing flagged it is LOW iff the mean reputation exceeds 0.4; with everything flagged the score is at most 50 and never LOW |

## Left out

- The Flask routes' HTTP handling, JSON encoding, the 404 status code and static file serving. Each route's body is modelled as a function of its inputs.
- `analyze_transactions` (backend/app.py:271-332) is left out: it builds a pandas frame and a networkx graph, which are foreign libraries.
- `get_network_analysis` is left out, except for the four helpers above. That includes its temporal helper `analyze_temporal_patterns`, which needs datetime conversion of timestamps.
- `get_crypto_prices`: external market data.
- The backend's own `generate_blockchain_data` (backend/app.py:28-86) draws random amounts and timestamps. The fund-tracing and risk models take the transactions and nodes as parameters instead.
- The clock and randomness: `time.time()`, `Date.now()` and `random.uniform` are parameters.
- Floating point: amounts and ratios are exact reals. Sums, means and the zero-sum law of the money flow hold exactly in the model; for the source's floating-point numbers they hold only up to rounding, and `NaN` is not modelled.
- `Patterns.RapidFor`: the source sorts each wallet's list in place (`wallet_txs.sort`). The model sorts a copy by value (a stable sort, as Python's is); nothing reads the groups afterwards, so the effect is the same.
- `FundTracing.Report`: `traced_paths.sort` is in place in the source; the model sorts by value.
- `NetworkMetrics.TopCentral` and `NetworkHealth.CalculateNetworkHealth` report their values unrounded: the source's `round(..., 4)` on the centrality and its `round` on the three health numbers are not modelled, because rounding reals to decimal places adds nothing to the properties. The level is read off the unrounded score, as in the source.
- The alerts' `description` strings are left out, since they only format the finding, and the finding is kept in `data`.
- The dashboard's 800 ms timer and the `fetch` of `/api/alerts` are left out. `FinishLoad` receives the generated data and, as `fetched`, the answer if there was one. The effect's cleanup on leaving the page is left out.
- `window.scrollTo`, animations, colours, sizes and other rendering are left out. Only the data the components compute is modelled.
- `NetworkGraph.NodePosition`: cosine and sine are the caller-supplied `unit`. Properties that need them depend on stated assumptions about `unit`.
- `FundTracing.TracePaths` proves that every record is a valid walk and that the first level is complete. It does not prove that deeper levels are complete (which edges the `visited` set admits beyond depth 2).
- `FundTracing.TraceFunds`: the route's default depth of 3 and its reading of the request body are left out; the depth is a parameter.
- `FlowAnalysis.AnalyzeMoneyFlow`: the order in which the set of addresses is iterated is a parameter, so the net flow's order is stated for any enumeration.
- `NetworkMetrics.CalculateNetworkMetrics`: the clustering coefficient is a random draw in the source and is a parameter here.
- The `circularTransactions` list of the patterns is always empty in the source and is not represented.
- `Text.LowerChar` folds only the ASCII letters A to Z. JavaScript's `toLowerCase` folds all of Unicode (the Kelvin sign U+212A becomes `k`), so a search whose query or fields hold non-ASCII capitals can match in the dashboard and not in the model.
- `SampleData`: the generator evaluates `Date.now() / 1000` anew for every timestamp, so the readings can differ by the milliseconds the generation takes. The model takes them all as one instant `now`.
