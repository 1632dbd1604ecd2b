# Bitter-Suite prediction engine, modelled in Dafny

This project models the core of Bitter-Suite, a bitcoin trading experiment, and proves properties of that model. The modelled core has five parts:

- **Historian** (`historian.dfy`) takes a timeline of OHLCV rows (time, low, high, open, close, volume). It slides a fixed window over the close column. For each window it records the closes, a forward price delta (the label) and the summed volume. It then drops windows by the sign of their label, and it can restrict the scan to the training or the testing half.
- **Streaming agents** (`base_agent.dfy`, `trading.dfy`, `peer_pressure.dfy`, `legacy_peer_pressure.dfy`) keep bounded FIFO windows of match, buy and sell prices. On every match they run a moving-average crossover rule that moves fixed lots between a USD and a BTC balance. The current agent decides before it pushes the match price; the older agent pushes first.
- **Clustering** (`em_clusters.dfy`, `simple_clusters.dfy`, `normalized_em_clusters.dfy`):
  - Forgy initialisation shuffles an index array with Fisher–Yates. The index array is built with a prefix scan, read here as a sequential left-to-right scan (see "## Left out").
  - The soft EM assign step fills a membership table (the memo) with row-normalised densities.
  - The update step moves each centroid to the memo-weighted mean of the features.
  - The hard variant gives each feature's winning centroid weight 1 and every other centroid a quarter of its density. It stops once reassignments stop strictly decreasing.
- **Estimators** (`latent_source_model.dfy`, `estimator.dfy`):
  - The latent-source model gives a softmax-weighted average of known price changes.
  - The per-centroid estimator sums label × volume × membership and min-max scales the result.
- **Debug tag alignment** (`debug.dfy`) covers the tag padding and the running maximum over the fixed tag map.

Shared arithmetic lives in `common.dfy` (sums, minima, maxima, quotients) and `stats.dfy` (dot products, squared deviations and the normalisation algebra that both normalisation variants share).

Modelling choices:

- Java `double` is Dafny `real`. Rounding, NaN and infinities are not modelled.
- `Math.exp`, `Math.sqrt` and `Random.nextInt(i + 1)` are function-typed parameters. Each comes with only the laws the proofs need:
  - `exp` is positive; where a proof needs more, also monotone with `exp(0) = 1`.
  - `sqrt` of a non-negative number is a non-negative square root.
  - `nextInt(i + 1)` returns a value in `[0, i]`.
- Java's `int` accumulator in `distanceSquared` is modelled exactly. Every `sum += d` is a narrowing cast that truncates toward zero and saturates at `Integer.MAX_VALUE`.
- Feature rows and centroid rows are `array<real>` objects inside an `array<array<real>>`. This keeps the source's aliasing: Forgy initialisation makes each centroid the very array of a feature row, so `update` zeroes those feature rows in place. The EM constructor proves that with at least one centroid the rows are shared (`!Separate()`). `Update` proves its weighted-mean result for the case where no rows are shared, and proves that feature rows which are not centroid rows are untouched.
- Inheritance (`SimpleClusters`/`NormalizedEMClusters` extend `EMClusters`; `PeerPressureAgent` extends `BaseAgent`) is modelled by composition: the subclass holds the base object in a `const` field. `NormalizedEMClusters.similarity` overrides nothing, because `EMClusters` declares no `similarity`, and `probabilityDensity` is `final` and always uses `distanceSquared` (src/main/java/agents/EMClusters.java:183-190). So the normalised clustering uses the Euclidean density too, contrary to the comment at src/main/java/agents/EMClusters.java:204-207, and the model's `NormalizedEMClusters.Similarity` is a standalone function.
- Already-parsed feed messages are the `Trading.Event` datatype. The message type and side are closed datatypes with a catch-all case for unrecognised strings.
- The main `EMClusters.run` is an unbounded `while (true)`. Its model takes a `fuel` bound on the number of rounds. The hard-assignment `run` needs no bound: `pastReassignments` strictly decreases on every round that continues.

## Model

| member | source | states |
|---|---|---|
| `Historian.Historian.constructor` | src/main/java/agents/Historian.java:11-13 | The historian keeps the timeline it is given; no operation writes it. |
| `Historian.Historian.CopyWindow` | src/main/java/agents/Historian.java:62-67 | The new feature array holds the CLOSE column of rows [i, i+windowSize), and the volume is the sum of the VOLUME column over the same rows. |
| `Historian.Historian.ScanWindows` | src/main/java/agents/Historian.java:47-73 | The three lists hold, entry by entry, the window, label and volume of exactly the kept scan positions in [left, right−windowSize), in scan order. |
| `Historian.Historian.ExtractOrders` | src/main/java/agents/Historian.java:32-76 | The result is a History describing exactly the kept positions, with features, labels and volumes of equal length whose k-th entries come from the same scan position. It fails (None) iff no window survives, as `featuresList.get(0)` throws. |
| `Historian.Positions` | src/main/java/agents/Historian.java:39-47 | Every returned position p satisfies left ≤ p and p + windowSize < right. |
| `Historian.ScanRange` | src/main/java/agents/Historian.java:39-44 | The scan range is [0,n) for BOTH, [0,n/2) for TRAINING and [n/2,n) for TESTING. |
| `Historian.PositionsMembers` | src/main/java/agents/Historian.java:47-61 | A position is returned iff it lies in [left, right−windowSize) and its label passes the type filter. |
| `Historian.KeptInOrdered` | src/main/java/agents/Historian.java:47 | Returned positions strictly increase: the scan runs left to right. |
| `Historian.CountWithoutTypeFilter` | src/main/java/agents/Historian.java:17-20 | With TypeFilter.BOTH exactly max(0, right−left−windowSize) windows come back, the k-th at position left+k; for SetFilter.BOTH that is n−windowSize. |
| `Historian.ClampUnreachable` | src/main/java/agents/Historian.java:47-57 | For every returned position the forward row lies inside the timeline, so the clamp-to-last-close branch never runs and the label is close[p+w] − close[p+w−1]. |
| `Historian.FilterBySign` | src/main/java/agents/Historian.java:60-61 | BUYS keeps only positive labels, SELLS only negative ones; a zero label survives only under BOTH. |
| `Historian.TrainingTestingDisjoint` | src/main/java/agents/Historian.java:39-57 | A training window and the row its label reads lie below n/2, and a testing window starts at or after n/2, so no position is in both sets. |
| `Historian.RisingTimelineScenario` | src/main/java/agents/Historian.java:15-20 | Ten rows of rising closes with a window of 3 give 7 windows at positions 0..6, each labelled with the following positive close step. |
| `BaseAgent.BaseAgent.constructor` | src/main/java/agents/BaseAgent.java:30-46 | The balances and window size are the arguments, and the six deques are fresh, distinct and empty. |
| `BaseAgent.BaseAgent.GetWindowSize` | src/main/java/agents/BaseAgent.java:48-50 | Returns the window size field, which no method writes after construction. |
| `BaseAgent.BaseAgent.IncrementWindow` | src/main/java/agents/BaseAgent.java:52-57 | The deque's new contents are its old ones with the oldest dropped when exactly full, plus the value at the back. It fails iff the deque is empty and the window size is 0. The balances and the window size are unchanged, and only the given deque is modified. |
| `BaseAgent.SlideContents` | src/main/java/agents/BaseAgent.java:53-56 | After a push the value is the last element; below capacity the contents are old+[v], at capacity old[1..]+[v]. |
| `BaseAgent.SlideBounded` | src/main/java/agents/BaseAgent.java:52-57 | With windowSize ≥ 1 every push succeeds and keeps size ≤ windowSize. |
| `BaseAgent.SlideZeroFails` | src/main/java/agents/BaseAgent.java:53-54 | With windowSize 0 the first push removes from an empty deque and fails. |
| `BaseAgent.SlideKeepsNewest` | src/main/java/agents/BaseAgent.java:52-57 | Pushing a stream into an empty window keeps exactly its last min(n, windowSize) values, in order. |
| `RealSeq.Total` | src/main/java/agents/PeerPressureAgent.java:85-88 | The summing loop over a window returns the window's sum. |
| `Trading.ComputeDecision` | src/main/java/agents/PeerPressureAgent.java:83-113 | The three summing loops and the crossover branch compute the decision rule Decide on the windows. |
| `Trading.DecideIdleOnEmptyWindow` | src/main/java/agents/PeerPressureAgent.java:83 | No trade unless the matches, buys and sells windows are all non-empty. |
| `Trading.DecideDebitsAtMostOne` | src/main/java/agents/PeerPressureAgent.java:103-113 | A decision changes nothing, or sells 0.012 BTC (only when BTC > 0.012) for last·0.012 USD, or spends 3 USD (only when USD > 3) for 3/last BTC. |
| `Trading.DecidePreservesValue` | src/main/java/agents/PeerPressureAgent.java:103-115 | Every trade is at the last match price, so usd + btc·last is the same before and after a decision. |
| `Trading.DecideTieBuys` | src/main/java/agents/PeerPressureAgent.java:103-112 | For matches [100], buys [101], sells [99] the averages tie, so the rule takes the spend-USD branch. |
| `PeerPressure.Handle` | src/main/java/agents/PeerPressureAgent.java:49-72 | No zero price ever enters the match window; the match window either stays as it was or ends in the event's price. |
| `PeerPressure.PeerPressureAgent.constructor` | src/main/java/agents/PeerPressureAgent.java:14-16 | The agent starts with the given balances, the given window size and three empty windows. |
| `PeerPressure.PeerPressureAgent.MakeDecision` | src/main/java/agents/PeerPressureAgent.java:81-118 | The balances become Decide of the old balances on the current windows, and no window is modified. |
| `PeerPressure.PeerPressureAgent.OnEvent` | src/main/java/agents/PeerPressureAgent.java:29-76 | The agent's new state and the raised/not-raised flag are those of Handle on the old state. The open/done windows and the window size are untouched. |
| `PeerPressure.HandleIgnores` | src/main/java/agents/PeerPressureAgent.java:37-71 | An ERROR event, a zero price, an unrecognised type or an unrecognised side changes nothing. |
| `PeerPressure.MatchDecidesBeforePush` | src/main/java/agents/PeerPressureAgent.java:52-60 | On MATCH the decision uses the windows before the price is pushed, so the first MATCH never trades. |
| `PeerPressure.HandleRoutes` | src/main/java/agents/PeerPressureAgent.java:52-68 | A RECEIVED event pushes into buys or sells by side and changes nothing else; a MATCH changes only the balances and the match window. |
| `PeerPressure.HandleKeepsBounded` | src/main/java/agents/PeerPressureAgent.java:49-72 | With windowSize ≥ 1 no event raises and every window stays within windowSize. |
| `PeerPressure.HandleAllKeepsBounded` | src/main/java/agents/PeerPressureAgent.java:29-76 | Over any stream of events with windowSize ≥ 1 nothing raises and every window stays within windowSize. |
| `PeerPressure.TieThenSpend` | src/main/java/agents/PeerPressureAgent.java:52-65 | A concrete four-event stream: only the second MATCH trades, spending 3 USD at the earlier match price 100. |
| `LegacyPeerPressure.LegacyPeerPressureAgent.constructor` | src/agents/PeerPressureAgent.java:14-16 | The agent starts with the given balances and six empty lists. |
| `LegacyPeerPressure.LegacyPeerPressureAgent.MakeDecision` | src/agents/PeerPressureAgent.java:98-135 | The balances become Decide of the old balances (thresholds 0.012 BTC and 3 USD), and no list is modified. |
| `LegacyPeerPressure.LegacyPeerPressureAgent.OnEvent` | src/agents/PeerPressureAgent.java:28-81 | The new state is LegacyHandle of the old one: push and trim first, then decide; the open/done lists are untouched. |
| `LegacyPeerPressure.RememberBounded` | src/agents/PeerPressureAgent.java:58-61 | A remembered price is the last entry, and a list of at most MEMORY = 1000 stays within it, dropping the oldest on overflow. |
| `LegacyPeerPressure.LegacyHandleIgnores` | src/agents/PeerPressureAgent.java:37-79 | ERROR events, zero prices, other event types and unrecognised sides change nothing. |
| `LegacyPeerPressure.LegacyTradesAtIncomingPrice` | src/agents/PeerPressureAgent.java:58-62 | On MATCH the incoming price is the last match when the decision runs, so any trade is at that price and preserves usd + btc·price. |
| `LegacyPeerPressure.LegacyHandleAllWithinMemory` | src/agents/PeerPressureAgent.java:48-80 | Over any event stream no list exceeds MEMORY entries. |
| `LegacyPeerPressure.LegacyTieThenSell` | src/agents/PeerPressureAgent.java:51-62 | The same four events as the current agent's scenario: the first MATCH already trades, and the second sells 0.012 BTC at 90. |
| `SimpleClusters.DifferenceProperties` | src/main/java/agents/SimpleClusters.java:34-41 | difference(a,b) = 1 − Σ abs(aᵢ−bᵢ)/n. It is symmetric on equal lengths, at most 1, and difference(a,a) = 1. |
| `SimpleClusters.DifferenceOfUnitVectors` | src/main/java/agents/SimpleClusters.java:35-40 | For entries in [0,1], difference lies in [0,1]. |
| `SimpleClusters.Scale` | src/main/java/agents/SimpleClusters.java:59-71 | The array is rewritten in place to Scaled of its old contents. |
| `SimpleClusters.ScaledInUnitRange` | src/main/java/agents/SimpleClusters.java:66-69 | Every scaled entry lies in [0,1]. |
| `SimpleClusters.ScaledExtremes` | src/main/java/agents/SimpleClusters.java:66-70 | For a non-constant vector, the scaled minimum is 0 and the scaled maximum exactly 1. |
| `SimpleClusters.ScaledMonotone` | src/main/java/agents/SimpleClusters.java:67-68 | Scaling preserves order. |
| `SimpleClusters.ScaledConstant` | src/main/java/agents/SimpleClusters.java:61-65 | A constant vector scales to all zeros. |
| `SimpleClusters.ScaledIdempotent` | src/main/java/agents/SimpleClusters.java:60-70 | Scaling twice equals scaling once. |
| `SimpleClusters.FirstArgMax` | src/main/java/agents/SimpleClusters.java:85-94 | The winner attains the maximum and every earlier index is strictly smaller: the first maximal index wins ties. |
| `SimpleClusters.FirstArgMaxUnique` | src/main/java/agents/SimpleClusters.java:90-93 | Any index with both properties is the one FirstArgMax picks. |
| `SimpleClusters.HardRowProperties` | src/main/java/agents/SimpleClusters.java:86-104 | A memo row has 1 at the first highest-density centroid and 0.25·difference elsewhere; on unit-range data every entry lies in [0,1]. |
| `SimpleClusters.ReassignedFromUnassigned` | src/main/java/agents/SimpleClusters.java:99-102 | From the constructor's all −1 assignments every feature counts as reassigned. |
| `SimpleClusters.ReassignedNothing` | src/main/java/agents/SimpleClusters.java:99-102 | Reassigning every feature to its current centroid counts nothing. |
| `SimpleClusters.SimpleClusters.constructor` | src/main/java/agents/SimpleClusters.java:15-21 | The EM constructor runs, every assignment is −1, and pastReassignments is Integer.MAX_VALUE. |
| `SimpleClusters.SimpleClusters.AssignRow` | src/main/java/agents/SimpleClusters.java:86-97 | The inner loop finds the first highest-density centroid and writes 0.25·density to memo row i only. |
| `SimpleClusters.SimpleClusters.Reassign` | src/main/java/agents/SimpleClusters.java:99-102 | Records the winner and counts the feature iff it was −1 or assigned elsewhere. |
| `SimpleClusters.SimpleClusters.AssignAll` | src/main/java/agents/SimpleClusters.java:82-105 | After both loops every memo row is the hard row, every assignment is the winner, and the count is the number of reassigned features. |
| `SimpleClusters.SimpleClusters.Assign` | src/main/java/agents/SimpleClusters.java:80-114 | Returns true iff 0 < reassignments < pastReassignments, and updates pastReassignments only then. A true return strictly lowers it, and the first call returns true when N < Integer.MAX_VALUE. Features and centroids are unchanged. |
| `SimpleClusters.SimpleClusters.AssignTwice` | src/main/java/agents/SimpleClusters.java:99-113 | A second assign with no update in between reassigns nothing and returns false. Afterwards the memo holds the hard rows, the assignments hold the winners, and pastReassignments is what the first call left. Features and centroids are unchanged. |
| `SimpleClusters.SimpleClusters.Run` | src/main/java/agents/EMClusters.java:56-65 | The hard-assignment run terminates, with pastReassignments as the measure. On a normal stop the memo holds the hard rows and the assignments hold the winners of the final centroids. |
| `EMClusters.JavaIntCast` | src/main/java/agents/EMClusters.java:216-218 | The int narrowing stays within int range and is the floor of a non-negative value below Integer.MAX_VALUE. |
| `EMClusters.DistSqProperties` | src/main/java/agents/EMClusters.java:215-222 | distanceSquared = min(Σ⌊(aᵢ−bᵢ)²⌋, Integer.MAX_VALUE). It is non-negative, symmetric on equal lengths, and 0 for identical vectors. |
| `EMClusters.DistanceSquared` | src/main/java/agents/EMClusters.java:215-222 | The int-accumulator loop computes DistSq. |
| `EMClusters.IdentityIndices` | src/main/java/agents/EMClusters.java:147-151 | Read as a sequential left-to-right prefix scan, the prefix-built index array is 0..N−1. |
| `EMClusters.Shuffle` | src/main/java/agents/EMClusters.java:193-202 | Fisher–Yates from the last cell down to cell 1 rewrites the array to Shuffled of its old contents. |
| `EMClusters.SwapPermutes` | src/main/java/agents/EMClusters.java:197-200 | One swap keeps the multiset of cells. |
| `EMClusters.ShufflePermutes` | src/main/java/agents/EMClusters.java:193-202 | The shuffle returns a permutation of its input. |
| `EMClusters.Forgy` | src/main/java/agents/EMClusters.java:147-152 | Starting from the sequentially scanned index array, the shuffled array holds each of 0..N−1 exactly once, so its first k ≤ N cells are distinct feature indices. |
| `EMClusters.InitializeCentroids` | src/main/java/agents/EMClusters.java:143-158 | Centroid i is the feature row (the same array object) at the i-th shuffled index. |
| `EMClusters.SoftRowStochastic` | src/main/java/agents/EMClusters.java:81-103 | With positive densities and at least one centroid, every memo row entry is positive and the row sums to 1. |
| `EMClusters.WeightedMeanBetween` | src/main/java/agents/EMClusters.java:119-139 | A memo-weighted mean column lies between the column's smallest and largest feature entry. |
| `EMClusters.EMClusters.constructor` | src/main/java/agents/EMClusters.java:37-52 | memo is an N×k zero table, and the k centroids are the Forgy-chosen feature rows themselves, aliased whenever k ≥ 1. |
| `EMClusters.EMClusters.SetCentroids` | src/main/java/agents/EMClusters.java:161-163 | Stores the caller's array itself, without copying. |
| `EMClusters.EMClusters.GetCentroids` | src/main/java/agents/EMClusters.java:166-168 | Returns the centroid rows themselves. |
| `EMClusters.EMClusters.GetMemo` | src/main/java/agents/EMClusters.java:171-173 | Returns the memo table itself. |
| `EMClusters.EMClusters.ProbabilityDensity` | src/main/java/agents/EMClusters.java:183-190 | The density is exp of the int squared distance, with a positive exponent. |
| `EMClusters.EMClusters.DensityRow` | src/main/java/agents/EMClusters.java:82-87 | The first inner loop fills the densities against every centroid and their running total. |
| `EMClusters.EMClusters.StoreRow` | src/main/java/agents/EMClusters.java:90-102 | Memo row i becomes the normalised densities and the other rows are unchanged; the flag notes whether any entry moved by more than 1e-8. |
| `EMClusters.EMClusters.Assign` | src/main/java/agents/EMClusters.java:75-105 | Every memo entry is overwritten with its soft row value; returns true iff some entry moved by more than ALLOWED_ERROR = 1e-8. |
| `EMClusters.EMClusters.AssignTwice` | src/main/java/agents/EMClusters.java:75-105 | Two assigns with no update in between: the second returns false and the memo stays at the first's result. |
| `EMClusters.EMClusters.SoftColumnsPositive` | src/main/java/agents/EMClusters.java:121-137 | After a soft assign every memo column has a positive total, so update's division is defined. |
| `EMClusters.EMClusters.ZeroCentroids` | src/main/java/agents/EMClusters.java:113-117 | Every centroid cell becomes 0, and so does every feature row that a centroid aliases. |
| `EMClusters.EMClusters.AddRow` | src/main/java/agents/EMClusters.java:128-133 | Adds memo[j][i]·feature j to centroid i cell by cell; this is exact even when the two are one array. |
| `EMClusters.EMClusters.AccumulateCentroid` | src/main/java/agents/EMClusters.java:121-134 | The total weight is the memo column sum and, without aliasing, the centroid gains the weighted feature sum. |
| `EMClusters.EMClusters.NormalizeCentroid` | src/main/java/agents/EMClusters.java:136-138 | Centroid i is divided by its total weight. |
| `EMClusters.EMClusters.UpdateCentroid` | src/main/java/agents/EMClusters.java:119-139 | Without aliasing, one centroid becomes its memo-weighted mean. |
| `EMClusters.EMClusters.Update` | src/main/java/agents/EMClusters.java:111-140 | Without aliasing, centroid c becomes Σⱼ memo[j][c]·fⱼ / Σⱼ memo[j][c] component-wise and the features stay unchanged. In every case a feature row that is not a centroid row is unchanged. |
| `EMClusters.EMClusters.Run` | src/main/java/agents/EMClusters.java:56-65 | When the loop stops because assign reports no change, the memo is the soft assignment of the final centroids. |
| `NormalizedEMClusters.SimilaritySymmetric` | src/main/java/agents/NormalizedEMClusters.java:29-44 | similarity(a,b) = (Σaᵢbᵢ)/n is symmetric. |
| `NormalizedEMClusters.StdIsRootOfVariance` | src/main/java/agents/NormalizedEMClusters.java:82-90 | std is non-negative and its square is the population variance Σ(x−mean)²/n. |
| `NormalizedEMClusters.NormalizeVector` | src/main/java/agents/NormalizedEMClusters.java:54-70 | Rewrites the argument in place to (x−mean)/std and returns the very same array. |
| `NormalizedEMClusters.NormalizedProperties` | src/main/java/agents/NormalizedEMClusters.java:65-67 | For non-zero std the normalised vector has sum 0 and mean 0, Σx²/n = 1, similarity(v,v) = 1, and its own std is 1. |
| `NormalizedEMClusters.SimilarityInRange` | src/main/java/agents/NormalizedEMClusters.java:22-26 | The similarity of two normalised vectors of one length lies in [−1, 1], so a vector's similarity with itself (1) is the largest. |
| `NormalizedEMClusters.NoWarningsIffInRange` | src/main/java/agents/NormalizedEMClusters.java:10-15 | No warning is counted iff every entry of the first feature lies in [−1,1]. |
| `NormalizedEMClusters.CheckRange` | src/main/java/agents/NormalizedEMClusters.java:10-15 | The range check counts one warning per out-of-range entry and writes nothing. |
| `NormalizedEMClusters.NormalizedEMClusters.constructor` | src/main/java/agents/NormalizedEMClusters.java:7-16 | The EM constructor runs, and then the range check, which neither rejects nor changes any feature. |
| `LatentSourceModel.SimilaritiesPositive` | src/main/java/agents/LatentSourceModel.java:46-53 | Every exp(c·similarity) is positive, and so is their total. |
| `LatentSourceModel.EstimateFuturePrice` | src/main/java/agents/LatentSourceModel.java:20-30 | With no known patterns the loop never runs and the estimate is 0. |
| `LatentSourceModel.WeightsStochastic` | src/main/java/agents/LatentSourceModel.java:22-28 | The weights similarities[i]/simSum are positive and sum to 1. |
| `LatentSourceModel.EstimateWithinChanges` | src/main/java/agents/LatentSourceModel.java:25-28 | The estimate lies between the minimum and maximum of the known price changes. |
| `LatentSourceModel.EstimateOfConstantChanges` | src/main/java/agents/LatentSourceModel.java:25-28 | When every known change is p the estimate is p. |
| `LatentSourceModel.EstimateWithoutLearning` | src/main/java/agents/LatentSourceModel.java:50 | With learntC = 0 the estimate is the plain average of the known changes. |
| `LatentSourceModel.WeightsFollowSimilarity` | src/main/java/agents/LatentSourceModel.java:49-51 | For learntC > 0 a pattern at least as similar gets at least as large a weight. |
| `LatentSourceModel.SimilaritySymmetric` | src/main/java/agents/LatentSourceModel.java:62-70 | similarity(a,b) = (Σaᵢbᵢ)/(n−1) is symmetric. |
| `LatentSourceModel.Mean` | src/main/java/agents/LatentSourceModel.java:84-86 | The mean times n is the sum; it is absent (getAsDouble throws) exactly for the empty vector. |
| `LatentSourceModel.NormalizeVector` | src/main/java/agents/LatentSourceModel.java:72-78 | Rewrites each entry in place to (x−mean)/std with the n−1 deviation; an empty vector fails and is left as it was. |
| `LatentSourceModel.NormalizedProperties` | src/main/java/agents/LatentSourceModel.java:72-100 | For non-zero std the normalised vector has mean 0, Σx² = n−1, similarity(v,v) = 1, and sample std 1. |
| `LatentSourceModel.SimilarityInRange` | src/main/java/agents/LatentSourceModel.java:55-70 | The similarity of two normalised vectors of one length lies in [−1, 1], so a vector's similarity with itself (1) is the largest. |
| `LatentSourceModel.NormalizedVectorsAgree` | src/test/java/test/Tests.java:81-94 | Any two normalised vectors have equal mean (0) and equal std (1), as the unit test checks. |
| `Estimator.Estimator.constructor` | src/main/java/agents/Estimator.java:7-10 | estimates has memo[0].length entries and equals the scaled column sums Σᵢ labels[i]·volumes[i]·memo[i][j] over featuresList.length rows. |
| `Estimator.Estimator.Estimate` | src/main/java/agents/Estimator.java:18-29 | The nested loop adds every row's contribution to each estimate, then scales in place. Only the estimates are modified, and featuresList is read only for its length. |
| `Estimator.Estimator.GetEstimates` | src/main/java/agents/Estimator.java:31-33 | Returns the estimates array itself. |
| `Estimator.EstimatesProperties` | src/main/java/agents/Estimator.java:27-28 | Every estimate lies in [0,1] and order is preserved. The largest raw sum becomes exactly 1 (not below 1, as the comment's [0,1) suggests) and the smallest 0; equal sums all become 0. |
| `Debug.DebugMap` | src/main/java/debug/Debug.java:20-29 | The fixed map has the six tags as keys, all mapped to true. |
| `Debug.PadString` | src/main/java/debug/Debug.java:83-91 | The builder loop produces Padded(str, d): max(0, d−len(str)−1) spaces, then str. |
| `Debug.PaddedShape` | src/main/java/debug/Debug.java:85-89 | The result ends with str, has only spaces before it and is max(len(str), d−1) long; it is str itself when d ≤ len(str)+1. |
| `Debug.Debug.constructor` | src/main/java/debug/Debug.java:42-49 | Starts with the fixed tag map and maxTagLength = NOT_ALIGNED = −1. |
| `Debug.Debug.AlignTags` | src/main/java/debug/Debug.java:93-99 | maxTagLength becomes max(old, lengths of the keys mapped to true). |
| `Debug.IsAlignedUnique` | src/main/java/debug/Debug.java:93-99 | That description admits one width only, whatever order the map is walked in. |
| `Debug.AlignIdempotent` | src/main/java/debug/Debug.java:94-98 | Aligning again leaves maxTagLength unchanged, and it never decreases. |
| `Debug.FixedMapAlignsToSeven` | src/main/java/debug/Debug.java:32-46 | With the fixed map and the initial −1, alignTags yields 7, the length of "IPUTILS". |
| `Debug.PadStringMisaligns` | src/main/java/debug/Debug.java:85 | As written, with width 7, "QR" pads to 6 characters while "IPUTILS" stays 7. |
| `Debug.PaddedExactAligns` | src/main/java/debug/Debug.java:85-88 | With d − len(s) spaces every tag no longer than the width pads to exactly the width, and all six tags come out 7 wide. |

## Findings

| source | as written | input that shows it | evidently intended | confidence | as-written member | corrected member |
|---|---|---|---|---|---|---|
| src/main/java/debug/Debug.java:85 | `padding = desiredLength - str.length() - 1` pads every tag shorter than the width to one character less than the width, while the longest tag stays at full width | maxTagLength = 7 after alignTags; padString("QR", 7) is 6 long, padString("IPUTILS", 7) is 7 long | `desiredLength - str.length()` spaces, so every tag is exactly maxTagLength wide and the colons line up | high; derived from the code, not executed | `Debug.PadStringMisaligns` | `Debug.PaddedExactAligns` |

## Left out

- JSON parsing, the `JSONException` handler and all console output of the agents (`System.out`/`System.err`, the "Starting with"/total printouts, the "New Assignments" print in the hard assign step). An event arrives as an already-parsed `Trading.Event`. Parse failures are not modelled.
- `Debug.out` and `Debug.err`: they only print. The QUIET switch is a constant false.
- The network clients, JavaFX controllers and application startup: they are I/O and UI only.
- `Cluster.java` (calls a method that does not exist and uses a parallel stream) and `TestAgent.java` (only prints). `src/agents/BaseAgent.java` only initialises fields, and is folded into the state of `LegacyPeerPressure.LegacyPeerPressureAgent`.
- Floating point: every `double` is a `real`. Rounding, NaN and infinity are out of scope, so every divisor (row sums, column sums, std, max−min, the last match price) is non-zero by precondition or by the proofs.
- `Math.exp`, `Math.sqrt` and `java.util.Random` are oracles given as parameters; their values are not computed.
- `EMClusters.EMClusters.Run`: the source's `while (true)` has no termination argument, so the model bounds it with a `fuel` count of rounds and makes no claim when fuel runs out.
- `EMClusters.EMClusters.Update`: the weighted-mean result is proved only when no centroid row is also a feature row or another centroid. With the aliasing that Forgy initialisation creates, the model proves only that the shared feature rows are zeroed first (`ZeroCentroids`) and that unshared feature rows are untouched. The values that aliased rows end with are not stated.
- `SimpleClusters.SimpleClusters.Run`: the source has no hard-assignment update of its own; the shared soft `update` is used after each hard assign, as the base class does. The model stops (reporting stalled) before an update whose memo column sums to zero, where Java would continue with NaN centroids.
- `Historian.Historian.ExtractOrders`: requires `windowSize ≥ 1` and rows of at least six columns. With a negative width, or with a width of 0 under BOTH or TRAINING (the first label reads row −1), Java throws, and that exception path is not modelled. A width of 0 under TESTING with at least two rows is excluded too, although Java accepts it and returns a History of empty windows.
- `EMClusters.IdentityIndices`: `Arrays.parallelPrefix` is modelled as a sequential left-to-right scan, which turns the zero array into 0..N−1. The JDK asks for an associative operator, and `(left, right) -> left + 1` is not one. On arrays long enough for the JDK to split the scan into chunks, each chunk's offset is combined with `left + 1` and loses the lengths of the chunks before it. The cells then depend on the split and can repeat. The chunked execution depends on the machine's parallelism and is not modelled.
- `EMClusters.Forgy`: its distinctness rests on the sequential reading above. Under the JDK's chunked scan the index array can repeat indices, and Forgy can pick the same feature row for two centroids. That case is not modelled.
- `SimpleClusters.SimpleClusters.Assign` (and `AssignAll`, `AssignTwice` and `Run`, through `Valid`): requires at least one centroid and features of width at least one. With no centroid, or with zero-width features (where `difference` is 0/0 = NaN and never beats the running maximum), the winner stays −1. Java then throws on `memo[i][assignedCentroid] = 1` (src/main/java/agents/SimpleClusters.java:104), and that exception path is not modelled.
- `EMClusters.EMClusters.constructor`: requires at least one feature and k ≤ N. Java throws on `featuresList[0]` or `featuresList[random[i]]` otherwise, and those exceptions are not modelled.
- `LatentSourceModel.NormalizeVector` and `NormalizedEMClusters.NormalizeVector`: require a non-zero standard deviation (and, for the sample variant, at least two entries). Java divides by zero and fills the vector with NaN or infinities otherwise.
- `Estimator.Estimator.constructor`: requires `memo` to have at least one row and `labels`, `volumes` and `memo` to cover `featuresList.length` rows. Java throws otherwise, and those exceptions are not modelled.
- `Debug.PadString`: requires a non-negative width. A negative width makes `new StringBuilder` throw; this never happens in the source, which pads only after alignment.
- Tests that call methods absent from the source, and the timing stress tests, are not modelled.
