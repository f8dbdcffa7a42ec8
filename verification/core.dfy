/**
 * Shared vocabulary of the fiducial-selection model: results and errors,
 * weight vectors, the abstract score, the `xor` option check, the
 * threshold verdict of `test_fiducial_list` and sublist extraction.
 */
module FidCore {

  datatype Option<+T> = None | Some(value: T)

  /** The exceptions the modelled code raises. */
  datatype Error =
    | ValueError(msg: string)
    | RecursionError
    | AssertionError
    | TypeError(msg: string)

  datatype Result<+T> = Ok(value: T) | Err(error: Error) {
    predicate IsFailure() {
      Err?
    }

    function PropagateFailure<U>(): Result<U>
      requires Err?
    {
      Err(error)
    }

    function Extract(): T
      requires Ok?
    {
      value
    }
  }

  /** A gate string is a sequence of gate labels. */
  type GateString = seq<string>

  /** A 0/1 weight vector: entry i says whether fidList[i] is selected. */
  type Weights = seq<bool>

  /**
   * A score as the eigenvalue arithmetic produces it: a finite number or
   * an infinity (of either sign).
   */
  datatype RawScore = Finite(v: real) | Infinite

  /** Number of selected entries (`sum(weights)`, the L1 norm). */
  function CountTrue(bs: seq<bool>): (c: nat)
    ensures c <= |bs|
  {
    if |bs| == 0 then 0
    else CountTrue(bs[..|bs| - 1]) + (if bs[|bs| - 1] then 1 else 0)
  }

  lemma {:induction false} CountTrueAppend(bs: seq<bool>, b: bool)
    ensures CountTrue(bs + [b]) == CountTrue(bs) + (if b then 1 else 0)
  {
    assert (bs + [b])[..|bs|] == bs;
  }

  /** Overwriting one entry changes the count by what was removed and what was written. */
  lemma {:induction false} CountTrueUpdate(bs: seq<bool>, i: nat, b: bool)
    requires i < |bs|
    ensures CountTrue(bs[i := b]) == CountTrue(bs) - (if bs[i] then 1 else 0) + (if b then 1 else 0)
  {
    var m := |bs|;
    var u := bs[i := b];
    if i < m - 1 {
      assert u[..m - 1] == bs[..m - 1][i := b];
      CountTrueUpdate(bs[..m - 1], i, b);
    } else {
      assert u[..m - 1] == bs[..m - 1];
    }
  }

  lemma {:induction false} CountTruePrepend(b: bool, bs: seq<bool>)
    ensures CountTrue([b] + bs) == CountTrue(bs) + (if b then 1 else 0)
  {
    if |bs| > 0 {
      var init := bs[..|bs| - 1];
      assert ([b] + bs)[..|bs|] == [b] + init;
      CountTruePrepend(b, init);
    }
  }

  lemma {:induction false} CountTrueAllTrue(n: nat)
    ensures CountTrue(seq(n, _ => true)) == n
  {
    if n > 0 {
      assert seq(n, _ => true)[..n - 1] == seq(n - 1, _ => true);
      CountTrueAllTrue(n - 1);
    }
  }

  /** Python truthiness of an optional number: `None` and `0` are falsy. */
  predicate Truthy(x: Option<real>) {
    x.Some? && x.value != 0.0
  }

  /** `xor(*args)`: the number of truthy arguments is exactly one. */
  function Xor(args: seq<bool>): bool {
    CountTrue(args) == 1
  }

  predicate ExactlyOneAt(args: seq<bool>, i: int) {
    0 <= i < |args| && args[i] && forall j :: 0 <= j < |args| && j != i ==> !args[j]
  }

  lemma {:induction false} NoneTrueCountZero(args: seq<bool>)
    requires forall j :: 0 <= j < |args| ==> !args[j]
    ensures CountTrue(args) == 0
  {
    if |args| > 0 {
      NoneTrueCountZero(args[..|args| - 1]);
    }
  }

  lemma {:induction false} CountZeroNoneTrue(args: seq<bool>)
    requires CountTrue(args) == 0
    ensures forall j :: 0 <= j < |args| ==> !args[j]
  {
    if |args| > 0 {
      var init := args[..|args| - 1];
      CountZeroNoneTrue(init);
      forall j | 0 <= j < |args| ensures !args[j] {
        if j < |args| - 1 { assert args[j] == init[j]; }
      }
    }
  }

  /** `xor` holds exactly when one argument is truthy and all others are falsy. */
  lemma {:induction false} XorExactlyOne(args: seq<bool>)
    ensures Xor(args) <==> exists i :: ExactlyOneAt(args, i)
  {
    if |args| == 0 {
      return;
    }
    var n := |args|;
    var init := args[..n - 1];
    assert forall j :: 0 <= j < n - 1 ==> init[j] == args[j];
    if Xor(args) {
      if args[n - 1] {
        CountZeroNoneTrue(init);
        assert ExactlyOneAt(args, n - 1);
      } else {
        XorExactlyOne(init);
        var i :| ExactlyOneAt(init, i);
        assert ExactlyOneAt(args, i);
      }
    } else {
      if i :| ExactlyOneAt(args, i) {
        if i == n - 1 {
          NoneTrueCountZero(init);
        } else {
          assert ExactlyOneAt(init, i);
          XorExactlyOne(init);
        }
      }
    }
  }

  /**
   * The verdict of `test_fiducial_list`: the list passes unless its score
   * is non-positive, infinite, or above the threshold.
   */
  function Verdict(score: RawScore, threshold: real): (ok: bool)
    ensures ok <==> score.Finite? && 0.0 < score.v <= threshold
  {
    match score
    case Infinite => false
    case Finite(v) => !(v <= 0.0 || v > threshold)
  }

  /** The selected positions of a weight vector, in increasing order. */
  function Positions(w: Weights): (ps: seq<nat>)
    ensures |ps| == CountTrue(w)
    ensures forall j :: 0 <= j < |ps| ==> ps[j] < |w| && w[ps[j]]
    ensures forall i, j :: 0 <= i < j < |ps| ==> ps[i] < ps[j]
  {
    if |w| == 0 then []
    else Positions(w[..|w| - 1]) + (if w[|w| - 1] then [|w| - 1] else [])
  }

  /** Every selected position is listed by `Positions`. */
  lemma {:induction false} PositionsComplete(w: Weights, i: nat)
    requires i < |w| && w[i]
    ensures i in Positions(w)
  {
    if i < |w| - 1 {
      PositionsComplete(w[..|w| - 1], i);
    }
  }

  /** The entries of `fids` at positions `ps`, in that order. */
  function Gather<T>(fids: seq<T>, ps: seq<nat>): (r: seq<T>)
    requires forall j :: 0 <= j < |ps| ==> ps[j] < |fids|
    ensures |r| == |ps|
    ensures forall x :: x in r ==> x in fids
  {
    seq(|ps|, j requires 0 <= j < |ps| => fids[ps[j]])
  }

  /**
   * The loop that builds `goodFidList`: the sublist of `fids` at the
   * selected positions, in their original order. Entries of `fids` past
   * the end of `w` are not selected.
   */
  method SelectFids(fids: seq<GateString>, w: Weights) returns (good: seq<GateString>)
    requires |w| <= |fids|
    ensures good == Gather(fids, Positions(w))
    ensures |good| == CountTrue(w)
  {
    good := [];
    var index := 0;
    while index < |w|
      invariant 0 <= index <= |w|
      invariant good == Gather(fids, Positions(w[..index]))
    {
      assert w[..index + 1][..index] == w[..index];
      if w[index] {
        good := good + [fids[index]];
      }
      index := index + 1;
    }
    assert w[..|w|] == w;
  }

  /** Total number of gates in a list of gate strings. */
  function TotalLength(fids: seq<GateString>): nat {
    if |fids| == 0 then 0 else TotalLength(fids[..|fids| - 1]) + |fids[|fids| - 1]|
  }
}
