/**
 * The `fixedNum` branch of `optimize_integer_fiducials_slack`: every
 * weight vector with `fixedNum` selected entries is scored and the best
 * one kept, where a score within 1e-8 of the best so far replaces it only
 * when its fiducials have fewer gates in total.
 */
module FixedNum {
  import opened FidCore
  import opened FidScore
  import opened BitVecMx

  /** Scores closer than this count as equal ("within machine precision"). */
  const NearTie: real := 0.00000001

  function Abs(x: real): (a: real)
    ensures a >= 0.0 && (a == x || a == -x)
  {
    if x < 0.0 then -x else x
  }

  /** Total number of gates in the fiducials `w` selects. */
  function SelectedLength(fids: seq<GateString>, w: Weights): nat
    requires |w| <= |fids|
  {
    TotalLength(Gather(fids, Positions(w)))
  }

  /** `best_score` and `best_weights`; `NoneYet` while `best_score` is still infinite. */
  datatype Best = NoneYet | Best(score: real, weights: Weights)

  predicate RowsFit(fids: seq<GateString>, rows: seq<Weights>) {
    forall j :: 0 <= j < |rows| ==> |rows[j]| <= |fids|
  }

  /**
   * One turn of the enumeration loop: the candidate `w` replaces the best
   * when its score is within `NearTie` of the best and its fiducials are
   * strictly shorter, or when it is farther than that and lower.
   */
  function Consider(cfg: ScoreConfig, fids: seq<GateString>, b: Best, w: Weights): (b': Best)
    requires |w| <= |fids| && (b.Best? ==> |b.weights| <= |fids|)
    ensures b'.Best?
    ensures b' == b || b' == Best(ScoreOf(cfg, w), w)
  {
    var t := ScoreOf(cfg, w);
    match b
    case NoneYet => Best(t, w)
    case Best(s, bw) =>
      if Abs(t - s) < NearTie then
        if SelectedLength(fids, w) < SelectedLength(fids, bw) then Best(t, w) else b
      else if t < s then Best(t, w)
      else b
  }

  /**
   * The best candidate after the whole loop: none for no candidates,
   * otherwise one of the candidates, carrying its own score.
   */
  function SelectBest(cfg: ScoreConfig, fids: seq<GateString>, rows: seq<Weights>): (b: Best)
    requires RowsFit(fids, rows)
    ensures |rows| == 0 <==> b.NoneYet?
    ensures b.Best? ==> b.weights in rows && b.score == ScoreOf(cfg, b.weights)
  {
    if |rows| == 0 then NoneYet
    else
      var init := rows[..|rows| - 1];
      assert forall j :: 0 <= j < |init| ==> init[j] == rows[j];
      Consider(cfg, fids, SelectBest(cfg, fids, init), rows[|rows| - 1])
  }

  /** The outcomes of one turn against an existing best. */
  lemma ConsiderStep(cfg: ScoreConfig, fids: seq<GateString>, b: Best, w: Weights)
    requires |w| <= |fids| && b.Best? && |b.weights| <= |fids|
    ensures var t := ScoreOf(cfg, w);
      if Abs(t - b.score) < NearTie then
        Consider(cfg, fids, b, w) == (if SelectedLength(fids, w) < SelectedLength(fids, b.weights) then Best(t, w) else b)
      else
        Consider(cfg, fids, b, w) == (if t < b.score then Best(t, w) else b)
  {
  }

  /** `SelectBest` of a non-empty list, one turn after the list without its last row. */
  lemma SelectBestLast(cfg: ScoreConfig, fids: seq<GateString>, rows: seq<Weights>)
    requires RowsFit(fids, rows) && |rows| > 0
    ensures RowsFit(fids, rows[..|rows| - 1])
    ensures SelectBest(cfg, fids, rows) == Consider(cfg, fids, SelectBest(cfg, fids, rows[..|rows| - 1]), rows[|rows| - 1])
  {
    assert forall j :: 0 <= j < |rows| - 1 ==> rows[..|rows| - 1][j] == rows[j];
  }

  /**
   * Near-ties can chain, so the winner is not always within `NearTie` of
   * the minimum; but each row j is beaten to within one `NearTie` for every
   * row examined from j on.
   */
  lemma {:induction false} SelectBestBound(cfg: ScoreConfig, fids: seq<GateString>, rows: seq<Weights>)
    requires RowsFit(fids, rows)
    ensures forall j :: 0 <= j < |rows| ==>
      SelectBest(cfg, fids, rows).score < ScoreOf(cfg, rows[j]) + (|rows| - j) as real * NearTie
  {
    if |rows| > 0 {
      var n := |rows|;
      var init := rows[..n - 1];
      var w := rows[n - 1];
      var t := ScoreOf(cfg, w);
      SelectBestLast(cfg, fids, rows);
      var b := SelectBest(cfg, fids, init);
      var b' := SelectBest(cfg, fids, rows);
      assert b'.score < t + NearTie by {
        if b.Best? {
          ConsiderStep(cfg, fids, b, w);
        }
      }
      if n > 1 {
        SelectBestBound(cfg, fids, init);
        ConsiderStep(cfg, fids, b, w);
        assert b'.score < b.score + NearTie;
      }
      forall j | 0 <= j < n ensures b'.score < ScoreOf(cfg, rows[j]) + (n - j) as real * NearTie {
        if j < n - 1 {
          assert rows[j] == init[j];
          var m := (n - 1 - j) as real;
          assert b.score < ScoreOf(cfg, init[j]) + m * NearTie;
          assert (n - j) as real * NearTie == m * NearTie + NearTie;
        } else {
          assert (n - j) as real * NearTie == NearTie;
        }
      }
    }
  }

  /** When no two candidates score within `NearTie` of each other, the winner has the least score. */
  lemma {:induction false} SelectBestNoNearTies(cfg: ScoreConfig, fids: seq<GateString>, rows: seq<Weights>)
    requires RowsFit(fids, rows)
    requires forall i, j :: 0 <= i < |rows| && 0 <= j < |rows| && i != j ==>
      Abs(ScoreOf(cfg, rows[i]) - ScoreOf(cfg, rows[j])) >= NearTie
    ensures forall j :: 0 <= j < |rows| ==> SelectBest(cfg, fids, rows).score <= ScoreOf(cfg, rows[j])
  {
    if |rows| > 1 {
      var n := |rows|;
      var init := rows[..n - 1];
      var w := rows[n - 1];
      var t := ScoreOf(cfg, w);
      SelectBestLast(cfg, fids, rows);
      forall i, j | 0 <= i < |init| && 0 <= j < |init| && i != j
        ensures Abs(ScoreOf(cfg, init[i]) - ScoreOf(cfg, init[j])) >= NearTie
      {
        assert init[i] == rows[i] && init[j] == rows[j];
      }
      SelectBestNoNearTies(cfg, fids, init);
      var b := SelectBest(cfg, fids, init);
      var b' := SelectBest(cfg, fids, rows);
      var k :| 0 <= k < |init| && init[k] == b.weights;
      assert rows[k] == b.weights;
      assert Abs(t - b.score) >= NearTie;
      ConsiderStep(cfg, fids, b, w);
      assert b'.score <= b.score && b'.score <= t;
      forall j | 0 <= j < n ensures b'.score <= ScoreOf(cfg, rows[j]) {
        if j < n - 1 {
          assert rows[j] == init[j];
        }
      }
    }
  }

  /**
   * When every candidate selects fiducials of the same total length, near
   * ties never switch, and the winner is within `NearTie` of every score.
   */
  lemma {:induction false} SelectBestEqualLengths(cfg: ScoreConfig, fids: seq<GateString>, rows: seq<Weights>, len: nat)
    requires RowsFit(fids, rows)
    requires forall j :: 0 <= j < |rows| ==> SelectedLength(fids, rows[j]) == len
    ensures forall j :: 0 <= j < |rows| ==> SelectBest(cfg, fids, rows).score < ScoreOf(cfg, rows[j]) + NearTie
  {
    if |rows| > 1 {
      var n := |rows|;
      var init := rows[..n - 1];
      var w := rows[n - 1];
      var t := ScoreOf(cfg, w);
      SelectBestLast(cfg, fids, rows);
      assert forall j :: 0 <= j < |init| ==> init[j] == rows[j];
      SelectBestEqualLengths(cfg, fids, init, len);
      var b := SelectBest(cfg, fids, init);
      var b' := SelectBest(cfg, fids, rows);
      var k :| 0 <= k < |init| && init[k] == b.weights;
      assert SelectedLength(fids, b.weights) == len;
      ConsiderStep(cfg, fids, b, w);
      assert b'.score <= b.score && b'.score < t + NearTie;
      forall j | 0 <= j < n ensures b'.score < ScoreOf(cfg, rows[j]) + NearTie {
        if j < n - 1 {
          assert rows[j] == init[j];
        }
      }
    }
  }

  /** Three single-fiducial candidates whose fiducials have 3, 2 and 1 gates ... */
  const DriftFids: seq<GateString> := [["Gx", "Gx", "Gx"], ["Gx", "Gx"], ["Gx"]]
  const DriftRows: seq<Weights> := [[true, false, false], [false, true, false], [false, false, true]]

  /** ... scoring 1, 1 + 0.9e-8 and 1 + 1.8e-8. */
  function DriftRaw(w: Weights): RawScore {
    if |w| == 3 && w[0] then Finite(1.0)
    else if |w| == 3 && w[1] then Finite(1.000000009)
    else Finite(1.000000018)
  }

  lemma DriftLength0()
    ensures SelectedLength(DriftFids, DriftRows[0]) == 3
  {
    var w := DriftRows[0];
    assert w[..2][..1] == [true] && [true][..0] == [];
    assert Positions(w[..2]) == [0];
    assert Positions(w) == [0];
    assert Gather(DriftFids, [0]) == [DriftFids[0]];
    assert [DriftFids[0]][..0] == [];
  }

  lemma DriftLength1()
    ensures SelectedLength(DriftFids, DriftRows[1]) == 2
  {
    var w := DriftRows[1];
    assert w[..2][..1] == [false] && [false][..0] == [];
    assert Positions(w[..2]) == [1];
    assert Positions(w) == [1];
    assert Gather(DriftFids, [1]) == [DriftFids[1]];
    assert [DriftFids[1]][..0] == [];
  }

  lemma DriftLength2()
    ensures SelectedLength(DriftFids, DriftRows[2]) == 1
  {
    var w := DriftRows[2];
    assert w[..2][..1] == [false] && [false][..0] == [];
    assert Positions(w[..2]) == [];
    assert Positions(w) == [2];
    assert Gather(DriftFids, [2]) == [DriftFids[2]];
    assert [DriftFids[2]][..0] == [];
  }

  /**
   * The chain of near ties made concrete: each candidate ties with the one
   * before and is shorter, so the last wins, 1.8e-8 above the minimum.
   */
  lemma NearTieDrift()
    ensures RowsFit(DriftFids, DriftRows)
    ensures SelectBest(ScoreConfig(DriftRaw, false, 0.0), DriftFids, DriftRows) == Best(1.000000018, DriftRows[2])
    ensures SelectBest(ScoreConfig(DriftRaw, false, 0.0), DriftFids, DriftRows).score >
      ScoreOf(ScoreConfig(DriftRaw, false, 0.0), DriftRows[0]) + NearTie
  {
    var fids, rows := DriftFids, DriftRows;
    var cfg := ScoreConfig(DriftRaw, false, 0.0);
    DriftFirstTwo();
    assert rows[..3] == rows;
    assert ScoreOf(cfg, rows[0]) == 1.0 && ScoreOf(cfg, rows[2]) == 1.000000018;
    DriftLength1();
    DriftLength2();
    SelectBestLast(cfg, fids, rows);
    ConsiderStep(cfg, fids, Best(1.000000009, rows[1]), rows[2]);
  }

  /** The first two candidates of the chain: the second ties with the first and is shorter. */
  lemma DriftFirstTwo()
    ensures RowsFit(DriftFids, DriftRows)
    ensures SelectBest(ScoreConfig(DriftRaw, false, 0.0), DriftFids, DriftRows[..2]) == Best(1.000000009, DriftRows[1])
  {
    var fids, rows := DriftFids, DriftRows;
    var cfg := ScoreConfig(DriftRaw, false, 0.0);
    assert RowsFit(fids, rows);
    assert ScoreOf(cfg, rows[0]) == 1.0 && ScoreOf(cfg, rows[1]) == 1.000000009;
    DriftLength0();
    DriftLength1();
    assert rows[..2][..1] == rows[..1] && rows[..1][..0] == [];
    SelectBestLast(cfg, fids, rows[..1]);
    var b1 := Best(1.0, rows[0]);
    assert SelectBest(cfg, fids, rows[..1]) == b1;
    SelectBestLast(cfg, fids, rows[..2]);
    ConsiderStep(cfg, fids, b1, rows[1]);
  }

  /** `np.concatenate` of a column of ones in front of every row. */
  function PrependOnes(rows: seq<Weights>): (rs: seq<Weights>)
    ensures |rs| == |rows|
    ensures forall j :: 0 <= j < |rows| ==> rs[j] == [true] + rows[j]
  {
    seq(|rows|, j requires 0 <= j < |rows| => [true] + rows[j])
  }

  /** `numBits` and `hammingWeight`: one fewer of each under `forceEmpty`, whose position 0 is fixed. */
  function NumBits(forceEmpty: bool, nFids: nat): int {
    if forceEmpty then nFids - 1 else nFids
  }

  function HammingWeight(forceEmpty: bool, fixedNum: int): int {
    if forceEmpty then fixedNum - 1 else fixedNum
  }

  /** The candidate weight vectors, once `build_bitvec_mx` has succeeded. */
  function Candidates(forceEmpty: bool, nFids: nat, fixedNum: int): seq<Weights>
    requires NumBits(forceEmpty, nFids) >= 0 && HammingWeight(forceEmpty, fixedNum) > 0
  {
    var rows := BitvecRows(NumBits(forceEmpty, nFids), HammingWeight(forceEmpty, fixedNum));
    if forceEmpty then PrependOnes(rows) else rows
  }

  /**
   * Every candidate has one entry per fiducial and exactly `fixedNum`
   * selected, position 0 (the empty fiducial) among them under
   * `forceEmpty`; no candidate appears twice; and every such vector is a
   * candidate.
   */
  lemma CandidatesSpec(forceEmpty: bool, nFids: nat, fixedNum: int)
    requires NumBits(forceEmpty, nFids) >= 0 && HammingWeight(forceEmpty, fixedNum) > 0
    ensures forall j :: 0 <= j < |Candidates(forceEmpty, nFids, fixedNum)| ==>
      |Candidates(forceEmpty, nFids, fixedNum)[j]| == nFids &&
      CountTrue(Candidates(forceEmpty, nFids, fixedNum)[j]) == fixedNum &&
      (forceEmpty ==> Candidates(forceEmpty, nFids, fixedNum)[j][0])
    ensures forall i, j :: 0 <= i < j < |Candidates(forceEmpty, nFids, fixedNum)| ==>
      Candidates(forceEmpty, nFids, fixedNum)[i] != Candidates(forceEmpty, nFids, fixedNum)[j]
    ensures |Candidates(forceEmpty, nFids, fixedNum)| == Binom(NumBits(forceEmpty, nFids), HammingWeight(forceEmpty, fixedNum))
    ensures forall w: Weights :: |w| == nFids && CountTrue(w) == fixedNum && (forceEmpty ==> w[0]) ==>
      w in Candidates(forceEmpty, nFids, fixedNum)
  {
    var n := NumBits(forceEmpty, nFids);
    var k := HammingWeight(forceEmpty, fixedNum);
    var rows := BitvecRows(n, k);
    var cs := Candidates(forceEmpty, nFids, fixedNum);
    BitvecRowsSpec(n, k);
    if forceEmpty {
      forall j | 0 <= j < |cs|
        ensures |cs[j]| == nFids && CountTrue(cs[j]) == fixedNum && cs[j][0]
      {
        CountTruePrepend(true, rows[j]);
      }
      forall i, j | 0 <= i < j < |cs| ensures cs[i] != cs[j] {
        assert cs[i][1..] == rows[i] && cs[j][1..] == rows[j];
      }
    }
    forall w: Weights | |w| == nFids && CountTrue(w) == fixedNum && (forceEmpty ==> w[0]) ensures w in cs {
      CandidateComplete(forceEmpty, fixedNum, w);
    }
  }

  /** A vector of the right length and weight, with position 0 set under `forceEmpty`, is a candidate. */
  lemma CandidateComplete(forceEmpty: bool, fixedNum: int, w: Weights)
    requires NumBits(forceEmpty, |w|) >= 0 && HammingWeight(forceEmpty, fixedNum) > 0
    requires CountTrue(w) == fixedNum && (forceEmpty ==> w[0])
    ensures w in Candidates(forceEmpty, |w|, fixedNum)
  {
    if forceEmpty {
      var v := w[1..];
      assert [true] + v == w;
      CountTruePrepend(true, v);
      assert Candidates(forceEmpty, |w|, fixedNum) == PrependOnes(BitvecRows(|v|, fixedNum - 1));
      PrependedComplete(v, fixedNum - 1);
    } else {
      assert Candidates(forceEmpty, |w|, fixedNum) == BitvecRows(|w|, fixedNum);
      BitvecRowsComplete(w);
    }
  }

  /** A row behind a leading one is among the prepended rows of its length and weight. */
  lemma PrependedComplete(v: Weights, k: nat)
    requires CountTrue(v) == k
    ensures [true] + v in PrependOnes(BitvecRows(|v|, k))
  {
    BitvecRowsComplete(v);
    var rows := BitvecRows(|v|, k);
    var j :| 0 <= j < |rows| && rows[j] == v;
    assert PrependOnes(rows)[j] == [true] + v;
  }

  /**
   * The enumeration is exhaustive: the winner scores within `NearTie` per
   * candidate of every vector with one entry per fiducial, `fixedNum` ones
   * and (under `forceEmpty`) position 0 set.
   */
  lemma FixedNumNearOptimal(cfg: ScoreConfig, fids: seq<GateString>, forceEmpty: bool, fixedNum: int, w: Weights)
    requires NumBits(forceEmpty, |fids|) >= 0 && HammingWeight(forceEmpty, fixedNum) > 0
    requires |w| == |fids| && CountTrue(w) == fixedNum && (forceEmpty ==> w[0])
    ensures RowsFit(fids, Candidates(forceEmpty, |fids|, fixedNum))
    ensures SelectBest(cfg, fids, Candidates(forceEmpty, |fids|, fixedNum)).Best?
    ensures SelectBest(cfg, fids, Candidates(forceEmpty, |fids|, fixedNum)).score <
      ScoreOf(cfg, w) + Binom(NumBits(forceEmpty, |fids|), HammingWeight(forceEmpty, fixedNum)) as real * NearTie
  {
    var cs := Candidates(forceEmpty, |fids|, fixedNum);
    CandidatesSpec(forceEmpty, |fids|, fixedNum);
    CandidateComplete(forceEmpty, fixedNum, w);
    var j :| 0 <= j < |cs| && cs[j] == w;
    SelectBestBound(cfg, fids, cs);
    assert (|cs| - j) as real * NearTie <= |cs| as real * NearTie;
  }

  /**
   * What the `fixedNum` branch returns: the error of `build_bitvec_mx`, or
   * the fiducials of the winning candidate in their original order (none
   * when there is no candidate).
   */
  function FixedNumResult(cfg: ScoreConfig, fids: seq<GateString>, forceEmpty: bool, fixedNum: int): Result<seq<GateString>> {
    var n := NumBits(forceEmpty, |fids|);
    var k := HammingWeight(forceEmpty, fixedNum);
    if n < 0 then Err(ValueError("negative dimensions are not allowed"))
    else if k <= 0 then Err(RecursionError)
    else
      CandidatesSpec(forceEmpty, |fids|, fixedNum);
      match SelectBest(cfg, fids, Candidates(forceEmpty, |fids|, fixedNum))
      case NoneYet => Ok([])
      case Best(_, w) => Ok(Gather(fids, Positions(w)))
  }

  /**
   * A `fixedNum` result lists exactly `fixedNum` fiducials, the first one
   * included under `forceEmpty`, whenever some candidate exists.
   */
  lemma FixedNumResultSize(cfg: ScoreConfig, fids: seq<GateString>, forceEmpty: bool, fixedNum: int)
    requires NumBits(forceEmpty, |fids|) >= 0 && HammingWeight(forceEmpty, fixedNum) > 0
    requires |Candidates(forceEmpty, |fids|, fixedNum)| > 0
    ensures FixedNumResult(cfg, fids, forceEmpty, fixedNum).Ok?
    ensures |FixedNumResult(cfg, fids, forceEmpty, fixedNum).value| == fixedNum
    ensures forceEmpty ==> FixedNumResult(cfg, fids, forceEmpty, fixedNum).value[0] == fids[0]
  {
    var cs := Candidates(forceEmpty, |fids|, fixedNum);
    CandidatesSpec(forceEmpty, |fids|, fixedNum);
    var b := SelectBest(cfg, fids, cs);
    var k :| 0 <= k < |cs| && cs[k] == b.weights;
    assert FixedNumResult(cfg, fids, forceEmpty, fixedNum) == Ok(Gather(fids, Positions(b.weights)));
    GatherCandidate(fids, b.weights, forceEmpty);
  }

  /** The fiducials a candidate selects: as many as its ones, led by `fids[0]` when position 0 is set. */
  lemma GatherCandidate(fids: seq<GateString>, w: Weights, forceEmpty: bool)
    requires |w| == |fids| && (forceEmpty ==> |w| > 0 && w[0])
    ensures |Gather(fids, Positions(w))| == CountTrue(w)
    ensures forceEmpty ==> |Gather(fids, Positions(w))| > 0 && Gather(fids, Positions(w))[0] == fids[0]
  {
    if forceEmpty {
      var ps := Positions(w);
      PositionsComplete(w, 0);
      assert ps[0] == 0;
    }
  }

  /**
   * Asking for a single fiducial under `forceEmpty` (only the empty one)
   * needs the weight-0 matrix, which the recursion never completes; the
   * intended matrix has one all-zero row, whose only candidate selects
   * `fidList[0]` alone.
   */
  lemma FixedNumSingleRecurses(cfg: ScoreConfig, fids: seq<GateString>)
    requires |fids| >= 1
    ensures FixedNumResult(cfg, fids, true, 1) == Err(RecursionError)
    ensures IntendedBitvecMx(NumBits(true, |fids|), HammingWeight(true, 1)) == Ok([seq(|fids| - 1, _ => false)])
    ensures PrependOnes([seq(|fids| - 1, _ => false)]) == [[true] + seq(|fids| - 1, _ => false)]
    ensures Gather(fids, Positions([true] + seq(|fids| - 1, _ => false))) == [fids[0]]
  {
    IntendedWeightZero(|fids| - 1);
    var w := [true] + seq(|fids| - 1, _ => false);
    CountTrueAllFalse(|fids| - 1);
    CountTruePrepend(true, seq(|fids| - 1, _ => false));
    assert Positions(w) == [0] by {
      var ps := Positions(w);
      assert |ps| == 1;
      assert w[ps[0]];
    }
  }
}
