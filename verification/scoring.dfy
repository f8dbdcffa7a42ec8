/**
 * `compute_score`, the closure inside `optimize_integer_fiducials_slack`
 * that scores a weight vector and memoises the score in `scoreD`.
 *
 * The score itself (eigenvalues of the score matrix of the selected
 * fiducials) is abstracted as `raw`, a function from weight vectors to a
 * raw score; everything the closure does around it is modelled exactly.
 */
module FidScore {
  import opened FidCore

  /** The score used for degenerate (non-positive or infinite) raw scores. */
  const DegenerateScore: real := 10000000000.0

  /**
   * What `compute_score` closes over: the raw score of each weight vector
   * (for the fixed gate set, fiducial list, role and `scoreFunc`) and the
   * `forceEmpty` / `forceEmptyScore` options.
   */
  datatype ScoreConfig = ScoreConfig(raw: Weights -> RawScore, forceEmpty: bool, forceEmptyScore: real)

  /** The vector leaves out the empty fiducial at position 0, which `forceEmpty` penalises. */
  predicate Forced(cfg: ScoreConfig, w: Weights) {
    cfg.forceEmpty && (|w| == 0 || !w[0])
  }

  /**
   * The score `compute_score` returns: the forced score when position 0 is
   * not selected under `forceEmpty`; otherwise the raw score, with every
   * non-positive or infinite raw score replaced by 1e10.
   */
  function ScoreOf(cfg: ScoreConfig, w: Weights): (s: real)
    ensures Forced(cfg, w) ==> s == cfg.forceEmptyScore
    ensures !Forced(cfg, w) ==> s > 0.0
    ensures !Forced(cfg, w) && cfg.raw(w).Finite? && cfg.raw(w).v > 0.0 ==> s == cfg.raw(w).v
    ensures !Forced(cfg, w) && !(cfg.raw(w).Finite? && cfg.raw(w).v > 0.0) ==> s == DegenerateScore
  {
    if Forced(cfg, w) then cfg.forceEmptyScore
    else match cfg.raw(w)
      case Infinite => DegenerateScore
      case Finite(v) => if v <= 0.0 then DegenerateScore else v
  }

  /** `wts[:1]`: the first entry, or nothing for an empty vector. */
  function Head(w: Weights): (h: Weights)
    ensures |h| == if |w| == 0 then 0 else 1
    ensures |h| == 1 ==> h[0] == w[0]
  {
    if |w| == 0 then [] else w[..1]
  }

  /** The memo table `scoreD`, keyed by weight vector. */
  class ScoreTable {
    const cfg: ScoreConfig
    var scoreD: map<Weights, real>

    /** Every memoised score is the score of its key. */
    ghost predicate Valid()
      reads this
    {
      forall w :: w in scoreD ==> scoreD[w] == ScoreOf(cfg, w)
    }

    constructor(cfg: ScoreConfig)
      ensures this.cfg == cfg && scoreD == map[]
      ensures Valid()
    {
      this.cfg := cfg;
      scoreD := map[];
    }

    /**
     * `compute_score(wts, cache_score)`: the score of `wts`, stored under
     * `wts` when `cache_score` is set.
     */
    method ComputeScore(wts: Weights, cacheScore: bool) returns (score: real)
      requires Valid()
      modifies this
      ensures Valid()
      ensures score == ScoreOf(cfg, wts)
      ensures scoreD == if cacheScore then old(scoreD)[wts := score] else old(scoreD)
    {
      var forced: Option<real> := None;
      if cfg.forceEmpty && CountTrue(Head(wts)) != 1 {
        forced := Some(cfg.forceEmptyScore);
      }
      if forced.Some? {
        score := forced.value;
      } else {
        assert |wts| > 0 && wts[0] ==> CountTrue(Head(wts)) == 1 by {
          if |wts| > 0 && wts[0] {
            assert Head(wts)[..0] == [];
          }
        }
        match cfg.raw(wts)
        case Infinite =>
          score := DegenerateScore;
        case Finite(v) =>
          score := v;
          if score <= 0.0 {
            score := DegenerateScore;
          }
      }
      if cacheScore {
        scoreD := scoreD[wts := score];
      }
    }
  }
}
