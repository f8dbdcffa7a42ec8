/**
 * The slack local search of `optimize_integer_fiducials_slack`, stated as
 * functions on a search state: the single-bit-toggle neighbourhood, the
 * main pass, the slack (relaxation) pass, one iteration of the outer loop
 * and the whole bounded search, with the properties the search promises.
 */
module SlackSearch {
  import opened FidCore
  import opened FidScore

  /** `get_neighbors`, one vector: `v` with entry i flipped. */
  function Toggle(v: Weights, i: nat): (t: Weights)
    requires i < |v|
    ensures |t| == |v|
  {
    v[i := !v[i]]
  }

  /** `get_neighbors(v)`: its vectors, in the order the generator yields them. */
  function Neighbors(v: Weights): (ns: seq<Weights>)
    ensures |ns| == |v|
  {
    seq(|v|, i requires 0 <= i < |v| => Toggle(v, i))
  }

  /**
   * There are `len(v)` neighbours; the i-th differs from `v` at position i
   * and nowhere else, so its count of selected entries is one more or one
   * less than that of `v`; and no two neighbours are equal.
   */
  lemma NeighborsSpec(v: Weights)
    ensures |Neighbors(v)| == |v|
    ensures forall i :: 0 <= i < |v| ==>
      |Neighbors(v)[i]| == |v| && Neighbors(v)[i][i] != v[i] &&
      (forall j :: 0 <= j < |v| && j != i ==> Neighbors(v)[i][j] == v[j])
    ensures forall i :: 0 <= i < |v| ==>
      CountTrue(Neighbors(v)[i]) == if v[i] then CountTrue(v) - 1 else CountTrue(v) + 1
    ensures forall i, j :: 0 <= i < j < |v| ==> Neighbors(v)[i] != Neighbors(v)[j]
  {
    forall i | 0 <= i < |v|
      ensures CountTrue(Neighbors(v)[i]) == if v[i] then CountTrue(v) - 1 else CountTrue(v) + 1
    {
      CountTrueUpdate(v, i, !v[i]);
    }
    forall i, j | 0 <= i < j < |v| ensures Neighbors(v)[i] != Neighbors(v)[j] {
      assert Neighbors(v)[i][i] != Neighbors(v)[j][i];
    }
  }

  /** The variables the outer loop carries: `weights`, `score`, `L1`, `lessWeightOnly`. */
  datatype SearchState = SearchState(weights: Weights, score: real, l1: nat, lessWeightOnly: bool)

  /** `score` is the score of `weights` and `L1` its number of selected entries. */
  predicate Consistent(cfg: ScoreConfig, st: SearchState) {
    st.score == ScoreOf(cfg, st.weights) && st.l1 == CountTrue(st.weights)
  }

  /** The state the search starts from, after `score = compute_score(weights)` and `L1 = sum(weights)`. */
  function Initial(cfg: ScoreConfig, w: Weights, lessWeightOnly: bool): (st: SearchState)
    ensures Consistent(cfg, st) && st.weights == w && st.lessWeightOnly == lessWeightOnly
  {
    SearchState(w, ScoreOf(cfg, w), CountTrue(w), lessWeightOnly)
  }

  /** The main pass moves to a neighbour that scores no worse and, in `lessWeightOnly` mode, selects fewer fiducials. */
  predicate MainAccepts(st: SearchState, nbScore: real, nbL1: nat) {
    nbScore <= st.score && (nbL1 < st.l1 || !st.lessWeightOnly)
  }

  /** The slack pass moves to a neighbour with fewer fiducials whose score is below the current (inflated) score. */
  predicate SlackAccepts(st: SearchState, nbScore: real, nbL1: nat) {
    nbL1 < st.l1 && nbScore < st.score
  }

  /** The neighbour `Toggle(start, i)` as the state a move to it produces. */
  function MoveTo(cfg: ScoreConfig, start: Weights, i: nat, lessWeightOnly: bool): (st: SearchState)
    requires i < |start|
    ensures Consistent(cfg, st) && st.weights == Toggle(start, i) && st.lessWeightOnly == lessWeightOnly
  {
    var nb := Toggle(start, i);
    SearchState(nb, ScoreOf(cfg, nb), CountTrue(nb), lessWeightOnly)
  }

  /**
   * The main pass from neighbour i on: every candidate is a neighbour of
   * `start`, the vector the pass began with, even after a move; `found`
   * records whether any move happened. The result keeps the mode, never
   * raises the score, never raises L1 in `lessWeightOnly` mode and strictly
   * lowers it if a move happened; a moved-to state is a consistent
   * neighbour of `start`; and if nothing moved, no remaining neighbour was
   * acceptable.
   */
  function MainFrom(cfg: ScoreConfig, start: Weights, st: SearchState, i: nat, found: bool): (r: (SearchState, bool))
    ensures r.0.lessWeightOnly == st.lessWeightOnly
    ensures r.0.score <= st.score
    ensures st.lessWeightOnly ==> r.0.l1 <= st.l1
    ensures found ==> r.1
    ensures !r.1 ==> r.0 == st
    ensures r.1 && !found ==> (st.lessWeightOnly ==> r.0.l1 < st.l1)
    ensures r.0 == st || (Consistent(cfg, r.0) && exists j :: i <= j < |start| && r.0.weights == Toggle(start, j))
    ensures !r.1 ==> forall j :: i <= j < |start| ==> !MainAccepts(st, ScoreOf(cfg, Toggle(start, j)), CountTrue(Toggle(start, j)))
    decreases |start| - i
  {
    if i >= |start| then (st, found)
    else
      var nb := MoveTo(cfg, start, i, st.lessWeightOnly);
      if MainAccepts(st, nb.score, nb.l1) then MainFrom(cfg, start, nb, i + 1, true)
      else MainFrom(cfg, start, st, i + 1, found)
  }

  /**
   * The slack pass from neighbour i on, against cached scores: a move
   * needs strictly fewer fiducials and a score below the current one, and
   * the moved-to state carries the neighbour's own score.
   */
  function SlackFrom(cfg: ScoreConfig, start: Weights, st: SearchState, i: nat, found: bool): (r: (SearchState, bool))
    ensures r.0.lessWeightOnly == st.lessWeightOnly
    ensures r.0.score <= st.score && r.0.l1 <= st.l1
    ensures found ==> r.1
    ensures !r.1 ==> r.0 == st
    ensures r.1 && !found ==> r.0.l1 < st.l1 && r.0.score < st.score
    ensures r.0 == st || (Consistent(cfg, r.0) && exists j :: i <= j < |start| && r.0.weights == Toggle(start, j))
    ensures !r.1 ==> forall j :: i <= j < |start| ==> !SlackAccepts(st, ScoreOf(cfg, Toggle(start, j)), CountTrue(Toggle(start, j)))
    decreases |start| - i
  {
    if i >= |start| then (st, found)
    else
      var nb := MoveTo(cfg, start, i, st.lessWeightOnly);
      if SlackAccepts(st, nb.score, nb.l1) then SlackFrom(cfg, start, nb, i + 1, true)
      else SlackFrom(cfg, start, st, i + 1, found)
  }

  /** `fixedSlack` and `slackFrac`; exactly one of them is truthy once the search runs. */
  datatype SlackOpts = SlackOpts(fixedSlack: Option<real>, slackFrac: Option<real>)

  predicate OneSlack(opts: SlackOpts) {
    Xor([Truthy(opts.fixedSlack), Truthy(opts.slackFrac)])
  }

  /**
   * The relaxed score: `slack` is `score + fixedSlack` or `score * slackFrac`
   * and is then added to the score, so the bound becomes
   * `2*score + fixedSlack` or `score*(1 + slackFrac)`; a slack that is not
   * positive fails the assertion. A relaxed score is above the score.
   */
  function Inflate(score: real, opts: SlackOpts): (r: Result<real>)
    requires OneSlack(opts)
    ensures Truthy(opts.fixedSlack) ==>
      r == if score + opts.fixedSlack.value > 0.0 then Ok(2.0 * score + opts.fixedSlack.value) else Err(AssertionError)
    ensures !Truthy(opts.fixedSlack) ==> Truthy(opts.slackFrac)
    ensures !Truthy(opts.fixedSlack) ==>
      r == if score * opts.slackFrac.value > 0.0 then Ok(score * (1.0 + opts.slackFrac.value)) else Err(AssertionError)
    ensures r.Ok? ==> r.value > score
  {
    var slack := if Truthy(opts.fixedSlack) then score + opts.fixedSlack.value else score * opts.slackFrac.value;
    if slack > 0.0 then Ok(score + slack) else Err(AssertionError)
  }

  /** How one iteration of the outer loop ends. */
  datatype PassOutcome =
    | Moved(st: SearchState)       // a better neighbour was found; iterate again
    | Stationary(st: SearchState)  // even the slack pass found nothing: `break`
    | Failed(err: Error)           // the slack was not positive

  /**
   * One iteration of `for iIter in range(maxIter)`: the main pass; if it
   * moved nowhere, switch to `lessWeightOnly`, inflate the score and run the
   * slack pass over the same neighbours.
   */
  function Pass(cfg: ScoreConfig, opts: SlackOpts, st: SearchState): PassOutcome
    requires OneSlack(opts)
  {
    var main := MainFrom(cfg, st.weights, st, 0, false);
    if main.1 then Moved(main.0)
    else
      var relaxed := main.0.(lessWeightOnly := true);
      match Inflate(relaxed.score, opts)
      case Err(e) => Failed(e)
      case Ok(inflated) =>
        var slack := SlackFrom(cfg, relaxed.weights, relaxed.(score := inflated), 0, false);
        if slack.1 then Moved(slack.0) else Stationary(slack.0)
  }

  /** The result of the search and the number of passes it ran. */
  datatype SearchOutcome = SearchOutcome(result: Result<SearchState>, passes: nat)

  /** At most `iters` passes, stopping early at a stationary point or a failure. */
  function Search(cfg: ScoreConfig, opts: SlackOpts, st: SearchState, iters: nat): (o: SearchOutcome)
    requires OneSlack(opts)
    ensures o.passes <= iters
    ensures iters > 0 ==> o.passes > 0
    decreases iters
  {
    if iters == 0 then SearchOutcome(Ok(st), 0)
    else match Pass(cfg, opts, st)
      case Failed(e) => SearchOutcome(Err(e), 1)
      case Stationary(s) => SearchOutcome(Ok(s), 1)
      case Moved(s) =>
        var o := Search(cfg, opts, s, iters - 1);
        SearchOutcome(o.result, o.passes + 1)
  }

  /** `range(maxIter)` runs no pass at all for a non-positive `maxIter`. */
  function Iterations(maxIter: int): (n: nat)
    ensures maxIter > 0 ==> n == maxIter
    ensures maxIter <= 0 ==> n == 0
  {
    if maxIter > 0 then maxIter else 0
  }

  /**
   * A pass that moves keeps the state consistent and the weight vector's
   * length; it never leaves `lessWeightOnly` mode once in it; and in that
   * mode it strictly lowers L1. A move made by the slack pass sets
   * `lessWeightOnly` for good and strictly lowers L1, whatever the mode the
   * pass started in. A pass that ends `Stationary` has switched
   * to `lessWeightOnly` and kept L1.
   */
  lemma PassSpec(cfg: ScoreConfig, opts: SlackOpts, st: SearchState)
    requires OneSlack(opts) && Consistent(cfg, st)
    ensures Pass(cfg, opts, st).Moved? ==>
      Consistent(cfg, Pass(cfg, opts, st).st) &&
      |Pass(cfg, opts, st).st.weights| == |st.weights| &&
      (st.lessWeightOnly ==> Pass(cfg, opts, st).st.lessWeightOnly && Pass(cfg, opts, st).st.l1 < st.l1)
    ensures !MainFrom(cfg, st.weights, st, 0, false).1 && Pass(cfg, opts, st).Moved? ==>
      Pass(cfg, opts, st).st.lessWeightOnly && Pass(cfg, opts, st).st.l1 < st.l1
    ensures Pass(cfg, opts, st).Stationary? ==>
      Pass(cfg, opts, st).st.lessWeightOnly && Pass(cfg, opts, st).st.weights == st.weights &&
      Pass(cfg, opts, st).st.l1 == st.l1
  {
    var main := MainFrom(cfg, st.weights, st, 0, false);
    if !main.1 {
      var relaxed := main.0.(lessWeightOnly := true);
      var inf := Inflate(relaxed.score, opts);
      if inf.Ok? {
        var slack := SlackFrom(cfg, relaxed.weights, relaxed.(score := inf.value), 0, false);
        if slack.1 {
          var j :| 0 <= j < |st.weights| && slack.0.weights == Toggle(st.weights, j);
        }
      }
    } else if main.0 != st {
      var j :| 0 <= j < |st.weights| && main.0.weights == Toggle(st.weights, j);
    }
  }

  /**
   * At a stationary point no neighbour is accepted by the main pass
   * against the score, and none by the slack pass against the inflated
   * score.
   */
  lemma StationarySpec(cfg: ScoreConfig, opts: SlackOpts, st: SearchState)
    requires OneSlack(opts) && Pass(cfg, opts, st).Stationary?
    ensures Inflate(st.score, opts) == Ok(Pass(cfg, opts, st).st.score)
    ensures forall j :: 0 <= j < |st.weights| ==>
      !MainAccepts(st, ScoreOf(cfg, Toggle(st.weights, j)), CountTrue(Toggle(st.weights, j)))
    ensures forall j :: 0 <= j < |st.weights| ==>
      !SlackAccepts(Pass(cfg, opts, st).st, ScoreOf(cfg, Toggle(st.weights, j)), CountTrue(Toggle(st.weights, j)))
  {
  }

  /**
   * A locally optimal state: its score is the inflated score of its
   * weights, its L1 counts them, and dropping any one selected fiducial
   * scores no lower than that.
   */
  predicate LocallyOptimal(cfg: ScoreConfig, opts: SlackOpts, s: SearchState)
    requires OneSlack(opts)
  {
    Inflate(ScoreOf(cfg, s.weights), opts) == Ok(s.score) &&
    s.l1 == CountTrue(s.weights) &&
    forall j :: 0 <= j < |s.weights| && s.weights[j] ==> ScoreOf(cfg, Toggle(s.weights, j)) >= s.score
  }

  /** A search that stops before running out of passes, without an error, ends locally optimal. */
  lemma {:induction false} SearchStopsLocallyOptimal(cfg: ScoreConfig, opts: SlackOpts, st: SearchState, iters: nat)
    requires OneSlack(opts) && Consistent(cfg, st)
    requires Search(cfg, opts, st, iters).passes < iters && Search(cfg, opts, st, iters).result.Ok?
    ensures LocallyOptimal(cfg, opts, Search(cfg, opts, st, iters).result.value)
    decreases iters
  {
    var p := Pass(cfg, opts, st);
    if p.Stationary? {
      assert Search(cfg, opts, st, iters).result == Ok(p.st);
      StationaryLocallyOptimal(cfg, opts, st);
    } else {
      assert p.Moved?;
      assert Search(cfg, opts, st, iters) ==
        SearchOutcome(Search(cfg, opts, p.st, iters - 1).result, Search(cfg, opts, p.st, iters - 1).passes + 1);
      MovedConsistent(cfg, opts, st);
      SearchStopsLocallyOptimal(cfg, opts, p.st, iters - 1);
    }
  }

  /** A pass that moves keeps the state consistent. */
  lemma MovedConsistent(cfg: ScoreConfig, opts: SlackOpts, st: SearchState)
    requires OneSlack(opts) && Consistent(cfg, st) && Pass(cfg, opts, st).Moved?
    ensures Consistent(cfg, Pass(cfg, opts, st).st)
  {
    PassSpec(cfg, opts, st);
  }

  /** The state a stationary pass ends in is locally optimal. */
  lemma StationaryLocallyOptimal(cfg: ScoreConfig, opts: SlackOpts, st: SearchState)
    requires OneSlack(opts) && Consistent(cfg, st) && Pass(cfg, opts, st).Stationary?
    ensures LocallyOptimal(cfg, opts, Pass(cfg, opts, st).st)
  {
    PassSpec(cfg, opts, st);
    StationarySpec(cfg, opts, st);
    var s := Pass(cfg, opts, st).st;
    forall j | 0 <= j < |s.weights| && s.weights[j]
      ensures ScoreOf(cfg, Toggle(s.weights, j)) >= s.score
    {
      CountTrueUpdate(st.weights, j, false);
      assert !SlackAccepts(s, ScoreOf(cfg, Toggle(st.weights, j)), CountTrue(Toggle(st.weights, j)));
    }
  }

  /**
   * The outcome `o` of a search from `st`, when it succeeds, ends with L1
   * counting its weights, in `lessWeightOnly` mode, with the length of `st`,
   * and with L1 at most `st`'s L1 minus the passes run plus one.
   */
  predicate ShrunkFrom(st: SearchState, o: SearchOutcome) {
    o.result.Ok? ==>
      var s := o.result.value;
      s.l1 == CountTrue(s.weights) && s.lessWeightOnly && |s.weights| == |st.weights| &&
      s.l1 + o.passes <= st.l1 + 1
  }

  /**
   * In `lessWeightOnly` mode (which a search from the all-ones vector is in
   * from the start) L1 never increases: every pass but the last strictly
   * lowers it, so the final L1 is at most the starting L1 minus the number
   * of passes plus one; the final L1 counts the final weights, and the
   * mode is kept.
   */
  lemma {:induction false} SearchShrinks(cfg: ScoreConfig, opts: SlackOpts, st: SearchState, iters: nat)
    requires OneSlack(opts) && Consistent(cfg, st) && st.lessWeightOnly
    ensures ShrunkFrom(st, Search(cfg, opts, st, iters))
    decreases iters
  {
    if iters > 0 && Pass(cfg, opts, st).Moved? {
      MovedShrinks(cfg, opts, st);
      SearchShrinks(cfg, opts, Pass(cfg, opts, st).st, iters - 1);
    }
    ShrinksStep(cfg, opts, st, iters);
  }

  /** The first pass of a shrinking search, given that the search after a move shrinks. */
  lemma ShrinksStep(cfg: ScoreConfig, opts: SlackOpts, st: SearchState, iters: nat)
    requires OneSlack(opts) && Consistent(cfg, st) && st.lessWeightOnly
    requires iters > 0 && Pass(cfg, opts, st).Moved? ==>
      ShrunkFrom(Pass(cfg, opts, st).st, Search(cfg, opts, Pass(cfg, opts, st).st, iters - 1))
    ensures ShrunkFrom(st, Search(cfg, opts, st, iters))
  {
    if iters > 0 {
      var p := Pass(cfg, opts, st);
      if p.Moved? {
        MovedShrinks(cfg, opts, st);
        var rest := Search(cfg, opts, p.st, iters - 1);
        assert Search(cfg, opts, st, iters) == SearchOutcome(rest.result, rest.passes + 1);
        ShrunkAfterMove(st, p.st, rest);
      } else if p.Stationary? {
        StationaryKeeps(cfg, opts, st);
        assert Search(cfg, opts, st, iters) == SearchOutcome(Ok(p.st), 1);
      } else {
        assert Search(cfg, opts, st, iters).result.Err?;
      }
    } else {
      assert Search(cfg, opts, st, iters) == SearchOutcome(Ok(st), 0);
    }
  }

  /** One more pass that lowered L1 before a shrinking search keeps it shrinking. */
  lemma ShrunkAfterMove(st: SearchState, next: SearchState, rest: SearchOutcome)
    requires next.l1 < st.l1 && |next.weights| == |st.weights| && ShrunkFrom(next, rest)
    ensures ShrunkFrom(st, SearchOutcome(rest.result, rest.passes + 1))
  {
  }

  /** A stationary pass ends where it started, in `lessWeightOnly` mode. */
  lemma StationaryKeeps(cfg: ScoreConfig, opts: SlackOpts, st: SearchState)
    requires OneSlack(opts) && Consistent(cfg, st) && Pass(cfg, opts, st).Stationary?
    ensures Pass(cfg, opts, st).st == st.(lessWeightOnly := true, score := Pass(cfg, opts, st).st.score)
  {
    PassSpec(cfg, opts, st);
  }

  /** In `lessWeightOnly` mode a pass that moves keeps the state consistent, its length and its mode, and lowers L1. */
  lemma MovedShrinks(cfg: ScoreConfig, opts: SlackOpts, st: SearchState)
    requires OneSlack(opts) && Consistent(cfg, st) && st.lessWeightOnly && Pass(cfg, opts, st).Moved?
    ensures Consistent(cfg, Pass(cfg, opts, st).st) && |Pass(cfg, opts, st).st.weights| == |st.weights|
    ensures Pass(cfg, opts, st).st.lessWeightOnly && Pass(cfg, opts, st).st.l1 < st.l1
  {
    PassSpec(cfg, opts, st);
  }

  /** Every state the search reaches has as many entries as the one it started from. */
  lemma {:induction false} SearchKeepsLength(cfg: ScoreConfig, opts: SlackOpts, st: SearchState, iters: nat)
    requires OneSlack(opts)
    ensures Search(cfg, opts, st, iters).result.Ok? ==>
      |Search(cfg, opts, st, iters).result.value.weights| == |st.weights|
    decreases iters
  {
    if iters > 0 {
      var main := MainFrom(cfg, st.weights, st, 0, false);
      if main.0 != st {
        var j :| 0 <= j < |st.weights| && main.0.weights == Toggle(st.weights, j);
      }
      var p := Pass(cfg, opts, st);
      if !main.1 {
        var relaxed := main.0.(lessWeightOnly := true);
        var inf := Inflate(relaxed.score, opts);
        if inf.Ok? {
          var slack := SlackFrom(cfg, relaxed.weights, relaxed.(score := inf.value), 0, false);
          if slack.0 != relaxed.(score := inf.value) {
            var j :| 0 <= j < |st.weights| && slack.0.weights == Toggle(st.weights, j);
          }
        }
      }
      if p.Moved? {
        SearchKeepsLength(cfg, opts, p.st, iters - 1);
      }
    }
  }
}
