/**
 * `optimize_integer_fiducials_slack` as the source runs it: the nested
 * loops of the slack local search over a shared memo table, the
 * exhaustive `fixedNum` enumeration, and the checks and dispatch around
 * them. Each loop is proved to compute what the specification functions
 * of `SlackSearch` and `FixedNum` define.
 */
module FidOptimize {
  import opened FidCore
  import opened FidScore
  import opened SlackSearch
  import opened BitVecMx
  import opened FixedNum

  /**
   * The main pass of one iteration: every neighbour of `start` is looked up
   * in `scoreD` or scored (and thereby memoised), and accepted or not
   * against the current state. Afterwards every neighbour of `start` is a
   * key of `scoreD`.
   */
  method MainPass(table: ScoreTable, start: Weights, st: SearchState) returns (cur: SearchState, found: bool)
    requires table.Valid()
    modifies table
    ensures table.Valid()
    ensures (cur, found) == MainFrom(table.cfg, start, st, 0, false)
    ensures forall j :: 0 <= j < |start| ==> Toggle(start, j) in table.scoreD
    ensures forall w :: w in old(table.scoreD) ==> w in table.scoreD
  {
    cur, found := st, false;
    var i := 0;
    while i < |start|
      invariant table.Valid()
      invariant 0 <= i <= |start|
      invariant forall w :: w in old(table.scoreD) ==> w in table.scoreD
      invariant forall j :: 0 <= j < i ==> Toggle(start, j) in table.scoreD
      invariant MainFrom(table.cfg, start, st, 0, false) == MainFrom(table.cfg, start, cur, i, found)
    {
      cur, found := MainTurn(table, start, i, cur, found);
      i := i + 1;
    }
  }

  /** The body of the main pass for neighbour `i`: look it up or score it, then accept it or not. */
  method MainTurn(table: ScoreTable, start: Weights, i: nat, cur: SearchState, found: bool)
    returns (cur': SearchState, found': bool)
    requires table.Valid() && i < |start|
    requires forall j :: 0 <= j < i ==> Toggle(start, j) in table.scoreD
    modifies table
    ensures table.Valid()
    ensures forall j :: 0 <= j <= i ==> Toggle(start, j) in table.scoreD
    ensures forall w :: w in old(table.scoreD) ==> w in table.scoreD
    ensures MainFrom(table.cfg, start, cur, i, found) == MainFrom(table.cfg, start, cur', i + 1, found')
  {
    var neighbor := Toggle(start, i);
    var neighborL1: nat;
    var neighborScore: real;
    if neighbor !in table.scoreD {
      neighborL1 := CountTrue(neighbor);
      neighborScore := table.ComputeScore(neighbor, true);
    } else {
      neighborL1 := CountTrue(neighbor);
      neighborScore := table.scoreD[neighbor];
    }
    if neighborScore <= cur.score && (neighborL1 < cur.l1 || !cur.lessWeightOnly) {
      cur', found' := SearchState(neighbor, neighborScore, neighborL1, cur.lessWeightOnly), true;
    } else {
      cur', found' := cur, found;
    }
  }

  /**
   * The slack pass: neighbours of `start` judged on their memoised scores,
   * every one of which is present.
   */
  method SlackPass(table: ScoreTable, start: Weights, st: SearchState) returns (cur: SearchState, found: bool)
    requires table.Valid()
    requires forall j :: 0 <= j < |start| ==> Toggle(start, j) in table.scoreD
    ensures (cur, found) == SlackFrom(table.cfg, start, st, 0, false)
  {
    cur, found := st, false;
    var i := 0;
    while i < |start|
      invariant 0 <= i <= |start|
      invariant SlackFrom(table.cfg, start, st, 0, false) == SlackFrom(table.cfg, start, cur, i, found)
    {
      cur, found := SlackTurn(table, start, i, cur, found);
      i := i + 1;
    }
  }

  /** The body of the slack pass for neighbour `i`, on its memoised score. */
  method SlackTurn(table: ScoreTable, start: Weights, i: nat, cur: SearchState, found: bool)
    returns (cur': SearchState, found': bool)
    requires table.Valid() && i < |start|
    requires Toggle(start, i) in table.scoreD
    ensures SlackFrom(table.cfg, start, cur, i, found) == SlackFrom(table.cfg, start, cur', i + 1, found')
  {
    var neighbor := Toggle(start, i);
    if CountTrue(neighbor) < cur.l1 && table.scoreD[neighbor] < cur.score {
      cur', found' := SearchState(neighbor, table.scoreD[neighbor], CountTrue(neighbor), cur.lessWeightOnly), true;
    } else {
      cur', found' := cur, found;
    }
  }

  /** `Inflate` adds the slack the loop body computes, or fails when it is not positive. */
  lemma InflateBySlack(score: real, opts: SlackOpts, slack: real)
    requires OneSlack(opts)
    requires slack == if Truthy(opts.fixedSlack) then score + opts.fixedSlack.value else score * opts.slackFrac.value
    ensures Inflate(score, opts) == if slack > 0.0 then Ok(score + slack) else Err(AssertionError)
  {
  }

  /**
   * One iteration of `for iIter in range(maxIter)`: the main pass over the
   * neighbours of the current vector; if it found nothing, switch to
   * `lessWeightOnly`, add the slack to the score and run the slack pass.
   */
  method RunPass(table: ScoreTable, opts: SlackOpts, st: SearchState) returns (p: PassOutcome)
    requires table.Valid() && OneSlack(opts)
    modifies table
    ensures table.Valid()
    ensures p == Pass(table.cfg, opts, st)
    ensures forall w :: w in old(table.scoreD) ==> w in table.scoreD
  {
    var cur, found := MainPass(table, st.weights, st);
    if found {
      return Moved(cur);
    }
    var score := cur.score;
    var slack: real;
    if Truthy(opts.fixedSlack) {
      slack := score + opts.fixedSlack.value;
    } else {
      slack := score * opts.slackFrac.value;
    }
    InflateBySlack(score, opts, slack);
    if !(slack > 0.0) {
      PassFails(table.cfg, opts, st, cur);
      return Failed(AssertionError);
    }
    var relaxed := SearchState(cur.weights, score + slack, cur.l1, true);
    var next, moved := SlackPass(table, cur.weights, relaxed);
    PassRelaxed(table.cfg, opts, st, cur, score + slack, next, moved);
    if moved {
      return Moved(next);
    }
    return Stationary(next);
  }

  /** `Pass` fails when the main pass found nothing and the slack is not positive. */
  lemma PassFails(cfg: ScoreConfig, opts: SlackOpts, st: SearchState, cur: SearchState)
    requires OneSlack(opts)
    requires MainFrom(cfg, st.weights, st, 0, false) == (cur, false)
    requires Inflate(cur.score, opts) == Err(AssertionError)
    ensures Pass(cfg, opts, st) == Failed(AssertionError)
  {
  }

  /** `Pass` ends with the slack pass when the main pass found nothing and the slack is positive. */
  lemma PassRelaxed(cfg: ScoreConfig, opts: SlackOpts, st: SearchState, cur: SearchState, inflated: real,
                    next: SearchState, moved: bool)
    requires OneSlack(opts)
    requires MainFrom(cfg, st.weights, st, 0, false) == (cur, false)
    requires Inflate(cur.score, opts) == Ok(inflated)
    requires (next, moved) == SlackFrom(cfg, cur.weights, SearchState(cur.weights, inflated, cur.l1, true), 0, false)
    ensures Pass(cfg, opts, st) == if moved then Moved(next) else Stationary(next)
  {
    assert cur.(lessWeightOnly := true).(score := inflated) == SearchState(cur.weights, inflated, cur.l1, true);
  }

  /**
   * The search loop, from `score = compute_score(weights)` to the end of
   * `for iIter in range(maxIter)`: at most `maxIter` iterations, leaving
   * the loop at a stationary point.
   */
  method RunSlackSearch(table: ScoreTable, opts: SlackOpts, w0: Weights, lessWeightOnly0: bool, maxIter: int)
    returns (r: Result<SearchState>)
    requires table.Valid() && OneSlack(opts)
    modifies table
    ensures table.Valid()
    ensures r == Search(table.cfg, opts, Initial(table.cfg, w0, lessWeightOnly0), Iterations(maxIter)).result
    ensures w0 in table.scoreD
    ensures forall w :: w in old(table.scoreD) ==> w in table.scoreD
  {
    ghost var total := Iterations(maxIter);
    var score := table.ComputeScore(w0, true);
    var st := SearchState(w0, score, CountTrue(w0), lessWeightOnly0);
    var iIter := 0;
    while iIter < maxIter
      invariant table.Valid()
      invariant 0 <= iIter <= total
      invariant w0 in table.scoreD
      invariant forall w :: w in old(table.scoreD) ==> w in table.scoreD
      invariant Search(table.cfg, opts, Initial(table.cfg, w0, lessWeightOnly0), total).result ==
        Search(table.cfg, opts, st, total - iIter).result
      decreases maxIter - iIter
    {
      var p := RunPass(table, opts, st);
      match p {
        case Failed(e) =>
          return Err(e);
        case Stationary(s) =>
          st := s;
          break;
        case Moved(s) =>
          st := s;
          iIter := iIter + 1;
      }
    }
    r := Ok(st);
  }

  /**
   * The `fixedNum` branch: enumerate the candidates, score each (memoised)
   * and keep the best under the near-tie rule; return the winner's
   * fiducials.
   */
  method FixedNumSearch(table: ScoreTable, fids: seq<GateString>, forceEmpty: bool, fixedNum: int)
    returns (r: Result<seq<GateString>>)
    requires table.Valid()
    modifies table
    ensures table.Valid()
    ensures r == FixedNumResult(table.cfg, fids, forceEmpty, fixedNum)
    ensures r.Ok? ==> forall w :: w in Candidates(forceEmpty, |fids|, fixedNum) ==> w in table.scoreD
    ensures forall w :: w in old(table.scoreD) ==> w in table.scoreD
  {
    var hammingWeight, numBits;
    if forceEmpty {
      hammingWeight := fixedNum - 1;
      numBits := |fids| - 1;
    } else {
      hammingWeight := fixedNum;
      numBits := |fids|;
    }
    var mat := BuildBitvecMx(numBits, hammingWeight);
    if mat.Err? {
      return Err(mat.error);
    }
    var bitVecMat := mat.value;
    if forceEmpty {
      bitVecMat := PrependOnes(bitVecMat);
    }
    assert bitVecMat == Candidates(forceEmpty, |fids|, fixedNum);
    CandidatesSpec(forceEmpty, |fids|, fixedNum);
    var bestScore, bestWeights := ScanCandidates(table, fids, bitVecMat);
    var goodFidList := SelectFids(fids, bestWeights);
    FixedNumFromBest(table.cfg, fids, forceEmpty, fixedNum, bestScore, bestWeights);
    r := Ok(goodFidList);
  }

  /** `FixedNumResult` once the scan over the candidates has found its best. */
  lemma FixedNumFromBest(cfg: ScoreConfig, fids: seq<GateString>, forceEmpty: bool, fixedNum: int,
                         bestScore: Option<real>, bestWeights: Weights)
    requires NumBits(forceEmpty, |fids|) >= 0 && HammingWeight(forceEmpty, fixedNum) > 0
    requires SelectBest(cfg, fids, Candidates(forceEmpty, |fids|, fixedNum)) ==
      if bestScore.None? then NoneYet else Best(bestScore.value, bestWeights)
    requires bestScore.None? ==> bestWeights == []
    ensures FixedNumResult(cfg, fids, forceEmpty, fixedNum) == Ok(Gather(fids, Positions(bestWeights)))
  {
    if bestScore.None? {
      assert Positions(bestWeights) == [];
    }
  }

  /** The body of `for weights in bitVecMat`: score the candidate and update the best as `Consider` does. */
  method ScanStep(table: ScoreTable, fids: seq<GateString>, bestScore: Option<real>, bestWeights: Weights, weights: Weights)
    returns (bestScore': Option<real>, bestWeights': Weights)
    requires table.Valid() && |weights| <= |fids| && |bestWeights| <= |fids|
    requires bestScore.None? ==> bestWeights == []
    modifies table
    ensures table.Valid()
    ensures |bestWeights'| <= |fids| && bestScore'.Some?
    ensures Best(bestScore'.value, bestWeights') ==
      Consider(table.cfg, fids, if bestScore.None? then NoneYet else Best(bestScore.value, bestWeights), weights)
    ensures weights in table.scoreD
    ensures forall w :: w in old(table.scoreD) ==> w in table.scoreD
  {
    bestScore', bestWeights' := bestScore, bestWeights;
    var tempScore := table.ComputeScore(weights, true);
    if bestScore.Some? && Abs(tempScore - bestScore.value) < NearTie {
      var bestFidList := SelectFids(fids, bestWeights);
      var tempFidList := SelectFids(fids, weights);
      var tempLen := TotalLength(tempFidList);
      var bestLen := TotalLength(bestFidList);
      assert tempLen == SelectedLength(fids, weights) && bestLen == SelectedLength(fids, bestWeights);
      if tempLen < bestLen {
        bestScore' := Some(tempScore);
        bestWeights' := weights;
      }
    } else if bestScore.None? || tempScore < bestScore.value {
      bestScore' := Some(tempScore);
      bestWeights' := weights;
    }
    if bestScore.Some? {
      ConsiderStep(table.cfg, fids, Best(bestScore.value, bestWeights), weights);
    }
  }

  /**
   * `for weights in bitVecMat`: `best_score` (absent while still infinite)
   * and `best_weights` end as `SelectBest` says.
   */
  method ScanCandidates(table: ScoreTable, fids: seq<GateString>, rows: seq<Weights>)
    returns (bestScore: Option<real>, bestWeights: Weights)
    requires table.Valid() && RowsFit(fids, rows)
    modifies table
    ensures table.Valid()
    ensures |bestWeights| <= |fids|
    ensures SelectBest(table.cfg, fids, rows) == if bestScore.None? then NoneYet else Best(bestScore.value, bestWeights)
    ensures bestScore.None? ==> bestWeights == []
    ensures forall j :: 0 <= j < |rows| ==> rows[j] in table.scoreD
    ensures forall w :: w in old(table.scoreD) ==> w in table.scoreD
  {
    bestScore := None;
    bestWeights := [];
    var idx := 0;
    while idx < |rows|
      invariant table.Valid()
      invariant 0 <= idx <= |rows|
      invariant |bestWeights| <= |fids|
      invariant bestScore.None? ==> bestWeights == []
      invariant SelectBest(table.cfg, fids, rows[..idx]) ==
        if bestScore.None? then NoneYet else Best(bestScore.value, bestWeights)
      invariant forall j :: 0 <= j < idx ==> rows[j] in table.scoreD
      invariant forall w :: w in old(table.scoreD) ==> w in table.scoreD
    {
      bestScore, bestWeights := ScanTurn(table, fids, rows, idx, bestScore, bestWeights);
      idx := idx + 1;
    }
    assert rows[..idx] == rows;
  }

  /** One turn of the scan in `ScanCandidates`: the best so far moves from `rows[..idx]` to `rows[..idx + 1]`. */
  method ScanTurn(table: ScoreTable, fids: seq<GateString>, rows: seq<Weights>, idx: nat,
                  bestScore: Option<real>, bestWeights: Weights)
    returns (bestScore': Option<real>, bestWeights': Weights)
    requires table.Valid() && RowsFit(fids, rows) && idx < |rows|
    requires |bestWeights| <= |fids| && (bestScore.None? ==> bestWeights == [])
    requires SelectBest(table.cfg, fids, rows[..idx]) ==
      if bestScore.None? then NoneYet else Best(bestScore.value, bestWeights)
    requires forall j :: 0 <= j < idx ==> rows[j] in table.scoreD
    modifies table
    ensures table.Valid()
    ensures |bestWeights'| <= |fids| && (bestScore'.None? ==> bestWeights' == [])
    ensures SelectBest(table.cfg, fids, rows[..idx + 1]) ==
      if bestScore'.None? then NoneYet else Best(bestScore'.value, bestWeights')
    ensures forall j :: 0 <= j < idx + 1 ==> rows[j] in table.scoreD
    ensures forall w :: w in old(table.scoreD) ==> w in table.scoreD
  {
    bestScore', bestWeights' := ScanStep(table, fids, bestScore, bestWeights, rows[idx]);
    assert rows[..idx + 1][..idx] == rows[..idx];
    SelectBestLast(table.cfg, fids, rows[..idx + 1]);
  }

  /**
   * The score oracle: the raw score of a subset of `fidList` given by a
   * weight vector, and the score `test_fiducial_list` computes for the
   * whole list, each for a role (`"prep"` or `"meas"`) and a `scoreFunc`.
   */
  datatype Oracle = Oracle(
    subset: (string, string, seq<GateString>, Weights) -> RawScore,
    full: (string, string, seq<GateString>) -> RawScore)

  /** The keyword arguments of `optimize_integer_fiducials_slack` that shape its result. */
  datatype SearchArgs = SearchArgs(
    prepOrMeas: Option<string>,
    initialWeights: Option<seq<bool>>,
    scoreFunc: string,
    maxIter: int,
    fixedSlack: Option<real>,
    slackFrac: Option<real>,
    forceEmpty: bool,
    forceEmptyScore: real,
    fixedNum: Option<int>,
    threshold: real)

  predicate ValidRole(prepOrMeas: Option<string>) {
    prepOrMeas == Some("prep") || prepOrMeas == Some("meas")
  }

  function RoleText(prepOrMeas: Option<string>): string {
    match prepOrMeas
    case None => "None"
    case Some(s) => s
  }

  /**
   * `test_fiducial_list(..., returnAll=True)[0]`: an unknown role is a
   * `ValueError`; otherwise the list passes exactly when its score is
   * finite, positive and at most `threshold`.
   */
  function TestFiducialList(oracle: Oracle, fids: seq<GateString>, prepOrMeas: Option<string>, scoreFunc: string, threshold: real)
    : (r: Result<bool>)
    ensures !ValidRole(prepOrMeas) ==> r.Err? && r.error.ValueError?
    ensures ValidRole(prepOrMeas) ==> r.Ok?
    ensures ValidRole(prepOrMeas) && r.Ok? ==>
      (r.value <==> var s := oracle.full(prepOrMeas.value, scoreFunc, fids); s.Finite? && 0.0 < s.v <= threshold)
  {
    if !ValidRole(prepOrMeas) then
      Err(ValueError("Invalid value \"" + RoleText(prepOrMeas) + "\" for prepOrMeas (must be \"prep\" or \"meas\")!"))
    else
      Ok(Verdict(oracle.full(prepOrMeas.value, scoreFunc, fids), threshold))
  }

  const SlackChoiceMsg: string := "One and only one of fixedSlack or slackFrac should be specified"

  /** What `compute_score` closes over for these arguments. */
  function ScoreCfg(oracle: Oracle, fids: seq<GateString>, args: SearchArgs): ScoreConfig
    requires ValidRole(args.prepOrMeas)
  {
    var role := args.prepOrMeas.value;
    ScoreConfig(w => oracle.subset(role, args.scoreFunc, fids, w), args.forceEmpty, args.forceEmptyScore)
  }

  /** The starting vector and mode: `initialWeights`, or all ones in `lessWeightOnly` mode. */
  function StartWeights(fids: seq<GateString>, args: SearchArgs): (Weights, bool) {
    match args.initialWeights
    case None => (seq(|fids|, _ => true), true)
    case Some(iw) => (iw, false)
  }

  /**
   * What `optimize_integer_fiducials_slack` returns (without `returnAll`):
   * an error, `None` when the whole list fails its test, or the selected
   * sublist of `fidList` from the `fixedNum` enumeration or the slack
   * search.
   */
  function OptimizeResult(oracle: Oracle, fids: seq<GateString>, args: SearchArgs): Result<Option<seq<GateString>>>
    requires args.initialWeights.Some? ==> |args.initialWeights.value| == |fids|
  {
    var opts := SlackOpts(args.fixedSlack, args.slackFrac);
    if !OneSlack(opts) then Err(ValueError(SlackChoiceMsg))
    else match TestFiducialList(oracle, fids, args.prepOrMeas, args.scoreFunc, args.threshold)
      case Err(e) => Err(e)
      case Ok(passed) =>
        if !passed then Ok(None)
        else
          var cfg := ScoreCfg(oracle, fids, args);
          if args.fixedNum.Some? then
            match FixedNumResult(cfg, fids, args.forceEmpty, args.fixedNum.value)
            case Err(e) => Err(e)
            case Ok(l) => Ok(Some(l))
          else
            var start := StartWeights(fids, args);
            var st := Initial(cfg, start.0, start.1);
            SearchKeepsLength(cfg, opts, st, Iterations(args.maxIter));
            match Search(cfg, opts, st, Iterations(args.maxIter)).result
            case Err(e) => Err(e)
            case Ok(s) => Ok(Some(Gather(fids, Positions(s.weights))))
  }

  /**
   * `optimize_integer_fiducials_slack`: the option check, the test of the
   * complete list, then the `fixedNum` enumeration or the slack search
   * over a fresh `scoreD`, and the selected sublist.
   */
  method OptimizeIntegerFiducialsSlack(oracle: Oracle, fids: seq<GateString>, args: SearchArgs)
    returns (r: Result<Option<seq<GateString>>>)
    requires args.initialWeights.Some? ==> |args.initialWeights.value| == |fids|
    ensures r == OptimizeResult(oracle, fids, args)
    ensures !OneSlack(SlackOpts(args.fixedSlack, args.slackFrac)) ==> r == Err(ValueError(SlackChoiceMsg))
    ensures OneSlack(SlackOpts(args.fixedSlack, args.slackFrac)) && !ValidRole(args.prepOrMeas) ==>
      r.Err? && r.error.ValueError?
    ensures (OneSlack(SlackOpts(args.fixedSlack, args.slackFrac)) && ValidRole(args.prepOrMeas) &&
             !Verdict(oracle.full(args.prepOrMeas.value, args.scoreFunc, fids), args.threshold)) ==> r == Ok(None)
  {
    var opts := SlackOpts(args.fixedSlack, args.slackFrac);
    if !Xor([Truthy(args.fixedSlack), Truthy(args.slackFrac)]) {
      return Err(ValueError(SlackChoiceMsg));
    }
    var initialTest := TestFiducialList(oracle, fids, args.prepOrMeas, args.scoreFunc, args.threshold);
    if initialTest.Err? {
      return Err(initialTest.error);
    }
    if !initialTest.value {
      return Ok(None);
    }
    var table := new ScoreTable(ScoreCfg(oracle, fids, args));
    if args.fixedNum.Some? {
      var res := FixedNumSearch(table, fids, args.forceEmpty, args.fixedNum.value);
      if res.Err? {
        return Err(res.error);
      }
      return Ok(Some(res.value));
    }
    var weights: Weights;
    var lessWeightOnly: bool;
    if args.initialWeights.Some? {
      weights := args.initialWeights.value;
      lessWeightOnly := false;
    } else {
      weights := seq(|fids|, _ => true);
      lessWeightOnly := true;
    }
    var res := RunSlackSearch(table, opts, weights, lessWeightOnly, args.maxIter);
    SearchKeepsLength(table.cfg, opts, Initial(table.cfg, weights, lessWeightOnly), Iterations(args.maxIter));
    if res.Err? {
      return Err(res.error);
    }
    var goodFidList := SelectFids(fids, res.value.weights);
    return Ok(Some(goodFidList));
  }

  /**
   * From the all-ones start (no `initialWeights`, no `fixedNum`) the search
   * only shrinks: the selected list has at most `len(fidList)` entries,
   * minus one for every pass after the first.
   */
  lemma OptimizeFromAllOnes(oracle: Oracle, fids: seq<GateString>, args: SearchArgs)
    requires args.initialWeights.None? && args.fixedNum.None?
    requires OptimizeResult(oracle, fids, args).Ok? && OptimizeResult(oracle, fids, args).value.Some?
    ensures var opts := SlackOpts(args.fixedSlack, args.slackFrac);
      var cfg := ScoreCfg(oracle, fids, args);
      var st := Initial(cfg, seq(|fids|, _ => true), true);
      |OptimizeResult(oracle, fids, args).value.value| + Search(cfg, opts, st, Iterations(args.maxIter)).passes <= |fids| + 1
  {
    var opts := SlackOpts(args.fixedSlack, args.slackFrac);
    var cfg := ScoreCfg(oracle, fids, args);
    var st := Initial(cfg, seq(|fids|, _ => true), true);
    CountTrueAllTrue(|fids|);
    SearchShrinks(cfg, opts, st, Iterations(args.maxIter));
  }

  /**
   * A `fixedNum` search with at least one candidate returns exactly
   * `fixedNum` fiducials, the empty one first under `forceEmpty`.
   */
  lemma OptimizeFixedNumSize(oracle: Oracle, fids: seq<GateString>, args: SearchArgs)
    requires args.fixedNum.Some?
    requires args.initialWeights.Some? ==> |args.initialWeights.value| == |fids|
    requires OptimizeResult(oracle, fids, args).Ok? && OptimizeResult(oracle, fids, args).value.Some?
    requires NumBits(args.forceEmpty, |fids|) >= 0 && HammingWeight(args.forceEmpty, args.fixedNum.value) > 0
    requires |Candidates(args.forceEmpty, |fids|, args.fixedNum.value)| > 0
    ensures |OptimizeResult(oracle, fids, args).value.value| == args.fixedNum.value
    ensures args.forceEmpty ==> OptimizeResult(oracle, fids, args).value.value[0] == fids[0]
  {
    FixedNumResultSize(ScoreCfg(oracle, fids, args), fids, args.forceEmpty, args.fixedNum.value);
  }

  /** Whatever the mode, a returned list holds only fiducials of `fidList`. */
  lemma OptimizeSublist(oracle: Oracle, fids: seq<GateString>, args: SearchArgs)
    requires args.initialWeights.Some? ==> |args.initialWeights.value| == |fids|
    requires OptimizeResult(oracle, fids, args).Ok? && OptimizeResult(oracle, fids, args).value.Some?
    ensures forall g :: g in OptimizeResult(oracle, fids, args).value.value ==> g in fids
  {
  }
}
