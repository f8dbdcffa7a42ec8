# Fiducial-subset search (pyGSTi `fiducialselection.py`)

A Dafny model of the fiducial selection in pyGSTi's
`packages/pygsti/algorithms/fiducialselection.py`. From a list of candidate
fiducials (gate strings) it picks a small subset whose score matrix is still
informationally complete. Each candidate subset is a 0/1 weight vector over
`fidList`. The model covers:

- `generate_fiducials`. It filters out the omitted gates and fills in the
  default keyword arguments. Then it runs one search for the preparation
  fiducials and one for the measurement fiducials (`generate.dfy`).
- `optimize_integer_fiducials_slack`. It checks that exactly one of
  `fixedSlack` and `slackFrac` is truthy (so `fixedSlack=0.0` counts as not
  given), then tests the complete list with
  `test_fiducial_list`. After that it runs one of two modes (`optimize.dfy`):
  - the slack local search over single-bit toggles (`get_neighbors`). Each
    iteration has a main pass, then a relaxation ("slack") pass when the main
    pass finds no better neighbour. The search stops at a stationary point or
    after `maxIter` iterations. Scores are memoised in `scoreD`.
  - the `fixedNum` mode. It enumerates every subset of exactly `fixedNum`
    fiducials. It keeps the best score and breaks near-ties (within 1e-8)
    towards fewer total gates.
- `compute_score`, including the `forceEmpty` penalty, the 1e10 stand-in for
  degenerate scores and memoisation (`scoring.dfy`).
- `build_bitvec_mx`, the recursive nested-loop enumeration of all rows of
  length n with k ones (`bitvec.dfy`).
- `xor`, the verdict of `test_fiducial_list` and the extraction of the
  selected sublist (`core.dfy`).

The spectrum-based score itself is not computed. It is a function from a
weight vector to a raw score, either finite or infinite. In the full
program this is `Oracle.subset`. Inside a search it is `ScoreConfig.raw`.
`test_fiducial_list` scores the whole list through `Oracle.full`. Everything
the program does with these scores is modelled exactly over the reals.

Each loop of the search, of the matrix construction, of the fiducial
extraction and of the filling of defaults is written as a Dafny method with
loop invariants: `SelectFids`, `BuildLoop`, `MainPass`/`SlackPass`,
`RunSlackSearch`, `ScanCandidates` and `FillDefaults`. The recursive
`build_mx` is the recursive method `BuildMx`. The memoising
`compute_score` is the method `ScoreTable.ComputeScore`, which has no loop.
The methods that call these (`BuildBitvecMx`, `RunPass`, `FixedNumSearch`)
are methods too. Each method is proved equal to a specification function:
`Positions`/`Gather`, `BitvecRows`, `ScoreOf`, `MainFrom`/`SlackFrom`/`Pass`/
`Search`, `SelectBest`/`FixedNumResult` and `WithDefaults`. Lemmas then prove what the search
promises about those functions. The remaining loops only compute a
value, and are written as functions: `get_neighbors`' loop over the
positions is the sequence comprehension `Neighbors`, the generator sums in
`xor` and in the total gate count are the recursive `CountTrue` and
`TotalLength`, and the filter of omitted gates is the recursive `FidGates`.

## Model

| member | source | states |
|---|---|---|
| FidCore.XorExactlyOne | packages/pygsti/algorithms/fiducialselection.py:94-112 | `xor(*args)` is true exactly when one and only one argument is truthy (both directions) |
| FidCore.Verdict | packages/pygsti/algorithms/fiducialselection.py:267-270 | a fiducial list passes exactly when its score is finite, positive and at most `threshold` |
| FidCore.Positions | packages/pygsti/algorithms/fiducialselection.py:654-657 | the selected indices of a weight vector: one per selected entry, each in range and selected, strictly increasing |
| FidCore.PositionsComplete | packages/pygsti/algorithms/fiducialselection.py:654-657 | every selected index is among the positions collected |
| FidCore.SelectFids | packages/pygsti/algorithms/fiducialselection.py:654-657 | the `goodFidList` loop returns the entries of `fidList` at the selected positions, in order, one per selected entry |
| BitVecMx.CombosCount | packages/pygsti/algorithms/fiducialselection.py:292 | there are binom(n - lo, k) strictly increasing k-position lists in [lo, n), the row count of the preallocated matrix |
| BitVecMx.CombosAreCombos | packages/pygsti/algorithms/fiducialselection.py:320-331 | every enumerated position list is strictly increasing, of length k, within [lo, n) |
| BitVecMx.CombosComplete | packages/pygsti/algorithms/fiducialselection.py:320-331 | every strictly increasing k-position list within [lo, n) is enumerated |
| BitVecMx.CombosSorted | packages/pygsti/algorithms/fiducialselection.py:320-338 | the nested loops enumerate the position lists in strictly increasing lexicographic order |
| BitVecMx.CombosDistinct | packages/pygsti/algorithms/fiducialselection.py:320-338 | no position list is enumerated twice |
| BitVecMx.BitsOfCount | packages/pygsti/algorithms/fiducialselection.py:320-322 | setting the bits at k distinct increasing positions gives a row with exactly k ones |
| BitVecMx.BitvecRowsSpec | packages/pygsti/algorithms/fiducialselection.py:275-339 | binom(n, k) rows, each of length n with exactly k ones, pairwise distinct, containing every such row, in lexicographic order of set positions |
| BitVecMx.EnumIsPrefixed | packages/pygsti/algorithms/fiducialselection.py:296-333 | the rows produced below a loop prefix are the prefix followed by each combination of the remaining depth |
| BitVecMx.EnumEmpty | packages/pygsti/algorithms/fiducialselection.py:327 | the loop range is empty once too few positions remain |
| BitVecMx.BuildMx | packages/pygsti/algorithms/fiducialselection.py:296-333 | `build_mx` writes exactly the rows of its subtree into the matrix from `counter` on, returns the next free row and leaves every other row unchanged |
| BitVecMx.BuildLoop | packages/pygsti/algorithms/fiducialselection.py:324-331 | the `for bit_loc` loop of `build_mx`: the same contract as `BuildMx` for depth i > 0 |
| BitVecMx.BuildBitvecMx | packages/pygsti/algorithms/fiducialselection.py:275-339 | n < 0 is the allocation's ValueError; k <= 0 is a RecursionError; otherwise the matrix is exactly `BitvecRows(n, k)` |
| BitVecMx.IntendedBitvecMx | packages/pygsti/algorithms/fiducialselection.py:275-293 | the documented matrix for every weight: binom(n, k) distinct rows of length n with k ones (none for k < 0), equal to `BuildBitvecMx` wherever that terminates |
| BitVecMx.IntendedWeightZero | packages/pygsti/algorithms/fiducialselection.py:275-293 | for weight 0 the documented matrix is one all-zero row |
| FidScore.ScoreOf | packages/pygsti/algorithms/fiducialselection.py:486-507 | the score is `forceEmptyScore` when position 0 is unselected under `forceEmpty`; otherwise it is always positive, the raw score when that is finite and positive, else 1e10 |
| FidScore.ScoreTable.ComputeScore | packages/pygsti/algorithms/fiducialselection.py:486-510 | `compute_score` returns `ScoreOf(wts)`, stores it under `wts` only when `cache_score`, and keeps every memoised score equal to the score of its key |
| SlackSearch.NeighborsSpec | packages/pygsti/algorithms/fiducialselection.py:573-577 | `get_neighbors(v)` yields `len(v)` vectors; the i-th differs from v exactly at i, has one more or one fewer selected entry, and all are pairwise distinct |
| SlackSearch.MainFrom | packages/pygsti/algorithms/fiducialselection.py:596-613 | the main pass never raises the score, never raises L1 in less-weight-only mode, ends at the state it started from or at a neighbour of the pass's start vector, and when it reports no move no neighbour satisfies the acceptance test |
| SlackSearch.SlackFrom | packages/pygsti/algorithms/fiducialselection.py:633-640 | the relaxation pass moves only to a neighbour with strictly smaller L1 and strictly smaller score; when it reports no move no neighbour qualifies |
| SlackSearch.Inflate | packages/pygsti/algorithms/fiducialselection.py:619-631 | the relaxed score is `2*score + fixedSlack` or `score*(1 + slackFrac)`, whichever option is truthy, and fails the assertion when the slack is not positive; a relaxed score always exceeds the score |
| SlackSearch.Search | packages/pygsti/algorithms/fiducialselection.py:590-646 | a search given `iters` passes runs at most `iters` of them, and at least one when `iters > 0`; `RunSlackSearch` gives it `max(maxIter, 0)`, so `range(maxIter)` bounds the passes |
| SlackSearch.PassSpec | packages/pygsti/algorithms/fiducialselection.py:596-644 | after a move the state is consistent and the same length, and in less-weight-only mode L1 strictly drops; a move made by the relaxation pass (the main pass found nothing) switches to less-weight-only mode and strictly lowers L1 whatever the mode was; a stationary pass keeps the weights and L1 and switches to less-weight-only mode |
| SlackSearch.StationarySpec | packages/pygsti/algorithms/fiducialselection.py:615-644 | at a stationary point the score is the relaxed score, and no neighbour passes either the main or the relaxed acceptance test |
| SlackSearch.SearchStopsLocallyOptimal | packages/pygsti/algorithms/fiducialselection.py:349-356 | a search that stops before its last allowed pass without an error ends locally optimal: its score is the relaxed score of its weights, its L1 counts them, and excluding any one selected fiducial scores at least that relaxed score |
| SlackSearch.SearchShrinks | packages/pygsti/algorithms/fiducialselection.py:579-646 | from a consistent less-weight-only start, the result's L1 is its number of selected entries, the length is kept, and every pass after the first removes at least one fiducial |
| SlackSearch.SearchKeepsLength | packages/pygsti/algorithms/fiducialselection.py:590-646 | the final weight vector has the length of the starting one |
| FixedNum.Consider | packages/pygsti/algorithms/fiducialselection.py:537-557 | a candidate either replaces the best so far, with its own score, or leaves it unchanged |
| FixedNum.SelectBest | packages/pygsti/algorithms/fiducialselection.py:531-557 | the scan finds no winner exactly when there are no candidates; a winner is a candidate and carries its own score |
| FixedNum.SelectBestBound | packages/pygsti/algorithms/fiducialselection.py:533-557 | the winning score is below each candidate's score plus 1e-8 for every candidate scanned from that one on |
| FixedNum.SelectBestNoNearTies | packages/pygsti/algorithms/fiducialselection.py:533-557 | when no two candidate scores are within 1e-8, the winner has the minimum score |
| FixedNum.SelectBestEqualLengths | packages/pygsti/algorithms/fiducialselection.py:537-553 | when all candidates have the same total gate count, the winner is within 1e-8 of every candidate score |
| FixedNum.NearTieDrift | packages/pygsti/algorithms/fiducialselection.py:537-557 | the near-tie rule is not transitive: a chain of near-ties with ever shorter lists ends more than 1e-8 above the minimum |
| FixedNum.CandidatesSpec | packages/pygsti/algorithms/fiducialselection.py:512-529 | the candidates are binom(numBits, hammingWeight) distinct vectors over `fidList`, each selecting exactly `fixedNum` fiducials and, under `forceEmpty`, the first; and every such vector is a candidate |
| FixedNum.FixedNumNearOptimal | packages/pygsti/algorithms/fiducialselection.py:512-557 | the enumeration is exhaustive: the winner scores less than 1e-8 per candidate above every vector that selects `fixedNum` fiducials (the first among them under `forceEmpty`) |
| FixedNum.FixedNumResultSize | packages/pygsti/algorithms/fiducialselection.py:512-568 | with at least one candidate the `fixedNum` branch returns exactly `fixedNum` fiducials, `fidList[0]` first under `forceEmpty` |
| FixedNum.FixedNumSingleRecurses | packages/pygsti/algorithms/fiducialselection.py:512-526 | `fixedNum = 1` under `forceEmpty` is a RecursionError, though the documented weight-0 matrix would select `fidList[0]` alone |
| FidOptimize.MainPass | packages/pygsti/algorithms/fiducialselection.py:591-613 | the main-pass loop computes `MainFrom`, leaves every neighbour of the start vector memoised and drops no memoised score |
| FidOptimize.SlackPass | packages/pygsti/algorithms/fiducialselection.py:633-640 | the relaxation loop, reading only memoised scores, computes `SlackFrom` |
| FidOptimize.RunPass | packages/pygsti/algorithms/fiducialselection.py:591-644 | one iteration of the outer loop computes `Pass`: moved, stationary, or the failed slack assertion; no memoised score is dropped |
| FidOptimize.RunSlackSearch | packages/pygsti/algorithms/fiducialselection.py:579-646 | the outer loop computes the result of `Search` from the initial state with `Iterations(maxIter)` = `max(maxIter, 0)` passes at most; the start vector ends memoised and no memoised score is dropped |
| FidOptimize.ScanStep | packages/pygsti/algorithms/fiducialselection.py:534-557 | one candidate of the `fixedNum` scan, tie-break included, updates the best so far as `Consider` does; the candidate ends memoised and no memoised score is dropped |
| FidOptimize.ScanCandidates | packages/pygsti/algorithms/fiducialselection.py:530-557 | the scan over all candidates computes `SelectBest`; every candidate ends memoised and no memoised score is dropped |
| FidOptimize.FixedNumSearch | packages/pygsti/algorithms/fiducialselection.py:512-568 | the `fixedNum` branch computes `FixedNumResult`: the error of `build_bitvec_mx`, or the fiducials of the winning candidate; on success every candidate ends memoised, and no memoised score is dropped |
| FidOptimize.TestFiducialList | packages/pygsti/algorithms/fiducialselection.py:186-272 | an invalid `prepOrMeas` is a ValueError; otherwise the list passes exactly when its score is finite, positive and at most `threshold` |
| FidOptimize.OptimizeIntegerFiducialsSlack | packages/pygsti/algorithms/fiducialselection.py:341-670 | computes `OptimizeResult`; raises the slack ValueError unless exactly one slack option is truthy; then raises the role ValueError; returns None when the complete list fails its test |
| FidOptimize.OptimizeFromAllOnes | packages/pygsti/algorithms/fiducialselection.py:579-657 | from the all-ones start the returned list has at most `len(fidList)` fiducials, one fewer for every pass after the first |
| FidOptimize.OptimizeFixedNumSize | packages/pygsti/algorithms/fiducialselection.py:512-568 | in `fixedNum` mode with some candidate, exactly `fixedNum` fiducials are returned, `fidList[0]` first under `forceEmpty` |
| FidOptimize.OptimizeSublist | packages/pygsti/algorithms/fiducialselection.py:559-563 | in either mode every returned fiducial is an entry of `fidList` |
| FidGenerate.FidGates | packages/pygsti/algorithms/fiducialselection.py:54 | `fidGates` holds exactly the target's gates that are not in `gatesToOmit` |
| FidGenerate.FidGatesNoneOmitted | packages/pygsti/algorithms/fiducialselection.py:54 | with nothing omitted, `fidGates` is the gate list itself, in order |
| FidGenerate.WithDefaults | packages/pygsti/algorithms/fiducialselection.py:58-68 | caller keys keep their values; a missing `fidList` becomes the available list and a missing `verbosity` the caller's verbosity; `slackFrac` becomes 1.0 only when neither slack key is present; no other key is added |
| FidGenerate.FillDefaults | packages/pygsti/algorithms/fiducialselection.py:63-68 | the in-place filling leaves the dictionary equal to `WithDefaults` of its old contents |
| FidGenerate.Decode | packages/pygsti/algorithms/fiducialselection.py:341-347 | binding keywords to the search's parameters: an unknown keyword or a missing `fidList` is a TypeError; the bound `fidList` is the one given; a fitting `initialWeights` keeps its length |
| FidGenerate.DecodeEncode | packages/pygsti/algorithms/fiducialselection.py:341-347 | every combination of parameters passed by keyword arrives unchanged |
| FidGenerate.DecodeDefaults | packages/pygsti/algorithms/fiducialselection.py:341-347 | the parameters the caller does not give take the signature's defaults: `scoreFunc='all'`, `maxIter=100`, `forceEmpty=True`, `forceEmptyScore=1e100`, `threshold=1e6`, the rest None |
| FidGenerate.GenerateResult | packages/pygsti/algorithms/fiducialselection.py:57-84 | an algorithm other than 'slack' is a ValueError naming it |
| FidGenerate.GenerateFromAvailable | packages/pygsti/algorithms/fiducialselection.py:54-78 | without a caller `fidList`, both returned lists consist of candidates built from the gates that are not omitted |
| FidGenerate.GenerateDefaults | packages/pygsti/algorithms/fiducialselection.py:58-78 | with no keyword arguments each search runs on the available list with `slackFrac=1.0`, the given role and every other parameter at its default |
| FidGenerate.OptimizeWithKwargs | packages/pygsti/algorithms/fiducialselection.py:72-78 | the keyword call binds the arguments and runs the search: `OptimizeResult` of the bound values, or the binding error |
| FidGenerate.GenerateFiducials | packages/pygsti/algorithms/fiducialselection.py:16-84 | returns `GenerateResult` of the dictionary as it was, the prep list then the meas list or the first error; for 'slack' it leaves the dictionary filled with the defaults |
| FidGenerate.SharedDefaultKeepsFirstList | packages/pygsti/algorithms/fiducialselection.py:16-17 | once the default dictionary has been filled, filling it again changes nothing, so a later call's own candidate list is ignored |
| FidGenerate.GenerateFiducialsFresh | packages/pygsti/algorithms/fiducialselection.py:16-84 | the corrected entry point works on a copy and returns `GenerateResult` of exactly the keywords given, an empty dictionary when none are given |
| FidGenerate.FreshDefaultsUseOwnList | packages/pygsti/algorithms/fiducialselection.py:54-78 | called without keywords, each search uses the current call's own candidate list with `slackFrac=1.0` and the defaults |

## Left out

- Printing and verbosity: `VerbosityPrinter` output and the `print` calls have no effect on results. `verbosity` is accepted and ignored.
- The score arithmetic: `make_prep_mxs`, `make_meas_mxs`, the score matrix, `eigvalsh` and `_scoring.list_score` are abstracted as the functions `Oracle.subset` and `Oracle.full`. These give a finite or infinite raw score. The gate set enters only through them.
- NaN scores: `RawScore` has no NaN, so comparisons that involve NaN are not modelled.
- Floating-point rounding: all score, slack and near-tie (1e-8) arithmetic is exact over the reals. `scipy.special.binom` is the exact `Binom`.
- `forceEmptyScore` is a real number. A Python infinity passed for it is not modelled.
- `returnAll`: only the fiducial list is returned. The final weight vector and `scoreD` are not returned, although `scoreD` is modelled as the `ScoreTable` field. The keyword is accepted and its value ignored.
- `list_all_gatestrings` is not part of this model. It is the function parameter `GateStringLister`.
- The `raise Exception('prepOrMeas must be specified!')` at lines 481-484 cannot be reached, because `test_fiducial_list` raises for the same roles first. Only the first error is modelled.
- Line 571 follows two returns and cannot be reached.
- OptimizeIntegerFiducialsSlack: requires that a given `initialWeights` has one entry per fiducial of `fidList`. The docstring demands this, and what numpy does with a mismatched vector is not modelled. `GenerateFiducials` passes the same demand on through `WeightsFit`.
- Weight vectors are `seq<bool>`. The 0/1 integers of the numpy arrays, and ints versus bools in `initialWeights`, are collapsed to booleans.
- BuildBitvecMx: the ValueError message for n < 0 stands for numpy's error. The never-ending recursion for k <= 0 is modelled as the error value `RecursionError`, not as a recursion. Python's recursion limit (1000 frames by default) is not modelled: `build_mx` nests one frame per set bit, so for k near 1000 the source raises `RecursionError` where the model returns `BitvecRows(n, k)` (for example 1001 fiducials with `forceEmpty` and `fixedNum=1001`, which calls `build_bitvec_mx(1000, 1000)`).
- Decode: a keyword value of another kind than the parameter's is reported as a TypeError naming the keyword. Only an int where a float is expected is converted. Python might instead accept the value, as with `forceEmpty=1` (truthiness) or `maxIter=True` (a bool is an int), or fail later. The TypeError for an unknown keyword does not name the keyword, because the model's dictionary is unordered.
- The `scoreD_keys` snapshot taken at the start of each pass is modelled as a live lookup in `scoreD`. The neighbours of one pass are pairwise distinct, so no neighbour is scored twice within a pass and the two readings agree.

## Findings

| source | as written | input that shows it | evidently intended | confidence | as-written member | corrected member |
|---|---|---|---|---|---|---|
| packages/pygsti/algorithms/fiducialselection.py:16-17 | `algorithm_kwargs={}` is a mutable default that lines 63-68 fill in place, so the shared default keeps the first call's `fidList`, `verbosity` and `slackFrac` | two calls without `algorithm_kwargs` for gate sets with different candidate lists: the second call searches the first call's candidates | each call without keywords searches its own candidate list | high, not executed | FidGenerate.SharedDefaultKeepsFirstList | FidGenerate.GenerateFiducialsFresh |
| packages/pygsti/algorithms/fiducialselection.py:275-339 | `build_bitvec_mx(n, 0)` never reaches loop depth 0 and recurses without end; with `forceEmpty` this is what `fixedNum=1` asks for | `fixedNum=1`, `forceEmpty=True`, any non-empty `fidList` | the single all-zero row, so the only candidate selects `fidList[0]` alone | medium, not executed | FixedNum.FixedNumSingleRecurses | BitVecMx.IntendedBitvecMx |
