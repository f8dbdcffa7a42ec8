/**
 * `build_bitvec_mx(n, k)`: every 0/1 row of length n with exactly k ones,
 * written into a preallocated zero matrix by a recursion that nests one
 * loop per set bit. The rows are specified by `Combos`, the k-subsets of
 * positions listed in lexicographic order.
 */
module BitVecMx {
  import opened FidCore

  /** Binomial coefficient by Pascal's rule. */
  function Binom(n: nat, k: nat): nat {
    if k == 0 then 1
    else if n == 0 then 0
    else Binom(n - 1, k - 1) + Binom(n - 1, k)
  }

  /**
   * The strictly increasing position lists of length k drawn from [lo, n),
   * in lexicographic order: those starting with lo, then the rest.
   */
  function Combos(lo: nat, n: nat, k: nat): seq<seq<nat>>
    decreases n - lo
  {
    if k == 0 then [[]]
    else if lo >= n then []
    else PrefixWith([lo], Combos(lo + 1, n, k - 1)) + Combos(lo + 1, n, k)
  }

  /** Each list of `cs` with `prev` in front of it. */
  function PrefixWith(prev: seq<nat>, cs: seq<seq<nat>>): (r: seq<seq<nat>>)
    ensures |r| == |cs|
  {
    seq(|cs|, j requires 0 <= j < |cs| => prev + cs[j])
  }

  /** The 0/1 row of length n whose ones are at the positions `ps`. */
  function BitsOf(n: nat, ps: seq<nat>): (row: Weights)
    ensures |row| == n
  {
    seq(n, j => j in ps)
  }

  function RowsOf(n: nat, cs: seq<seq<nat>>): (rows: seq<Weights>)
    ensures |rows| == |cs|
  {
    seq(|cs|, j requires 0 <= j < |cs| => BitsOf(n, cs[j]))
  }

  /** The rows of length n with k ones, by the lexicographic order of their set positions. */
  function BitvecRows(n: nat, k: nat): seq<Weights> {
    RowsOf(n, Combos(0, n, k))
  }

  predicate Increasing(c: seq<nat>) {
    forall i, j :: 0 <= i < j < |c| ==> c[i] < c[j]
  }

  /** A k-subset of [lo, n), written in increasing order. */
  predicate IsCombo(c: seq<nat>, lo: nat, n: nat, k: nat) {
    |c| == k && Increasing(c) && forall i :: 0 <= i < |c| ==> lo <= c[i] < n
  }

  /** Strict lexicographic order on position lists. */
  predicate LexLess(a: seq<nat>, b: seq<nat>) {
    |a| > 0 && |b| > 0 && (a[0] < b[0] || (a[0] == b[0] && LexLess(a[1..], b[1..])))
  }

  lemma {:induction false} LexLessIrreflexive(a: seq<nat>)
    ensures !LexLess(a, a)
  {
    if |a| > 0 {
      LexLessIrreflexive(a[1..]);
    }
  }

  /** Too few positions left: nothing to enumerate. */
  lemma {:induction false} CombosEmpty(lo: nat, n: nat, k: nat)
    requires k >= 1 && lo + k > n
    ensures Combos(lo, n, k) == []
    decreases n - lo
  {
    if lo < n {
      CombosEmpty(lo + 1, n, k - 1);
      CombosEmpty(lo + 1, n, k);
    }
  }

  /** There are binom(n - lo, k) of them. */
  lemma {:induction false} CombosCount(lo: nat, n: nat, k: nat)
    requires lo <= n
    ensures |Combos(lo, n, k)| == Binom(n - lo, k)
    decreases n - lo
  {
    if k > 0 && lo < n {
      CombosCount(lo + 1, n, k - 1);
      CombosCount(lo + 1, n, k);
    }
  }

  /** Every listed position list is a k-subset of [lo, n). */
  lemma {:induction false} CombosAreCombos(lo: nat, n: nat, k: nat)
    ensures forall j :: 0 <= j < |Combos(lo, n, k)| ==> IsCombo(Combos(lo, n, k)[j], lo, n, k)
    decreases n - lo
  {
    if k > 0 && lo < n {
      CombosAreCombos(lo + 1, n, k - 1);
      CombosAreCombos(lo + 1, n, k);
      var a := Combos(lo + 1, n, k - 1);
      var cs := Combos(lo, n, k);
      forall j | 0 <= j < |cs| ensures IsCombo(cs[j], lo, n, k) {
        if j < |a| {
          assert cs[j] == [lo] + a[j];
          assert IsCombo(a[j], lo + 1, n, k - 1);
        } else {
          assert cs[j] == Combos(lo + 1, n, k)[j - |a|];
        }
      }
    }
  }

  /** Dropping the first position leaves a (k-1)-subset above it. */
  lemma ComboTail(c: seq<nat>, lo: nat, n: nat, k: nat)
    requires k > 0 && IsCombo(c, lo, n, k)
    ensures IsCombo(c[1..], c[0] + 1, n, k - 1)
  {
    forall i | 0 <= i < |c[1..]| ensures c[0] + 1 <= c[1..][i] < n {
      assert c[1..][i] == c[i + 1];
    }
  }

  /** A subset that does not contain `lo` lies in [lo + 1, n). */
  lemma ComboWiden(c: seq<nat>, lo: nat, n: nat, k: nat)
    requires k > 0 && IsCombo(c, lo, n, k) && c[0] != lo
    ensures IsCombo(c, lo + 1, n, k)
  {
    forall i | 0 <= i < |c| ensures lo + 1 <= c[i] {
      if i > 0 {
        assert c[0] < c[i];
      }
    }
  }

  lemma InPrefixWith(prev: seq<nat>, cs: seq<seq<nat>>, x: seq<nat>)
    requires x in cs
    ensures prev + x in PrefixWith(prev, cs)
  {
    var j :| 0 <= j < |cs| && cs[j] == x;
    assert PrefixWith(prev, cs)[j] == prev + x;
  }

  /** Every k-subset of [lo, n) is listed. */
  lemma {:induction false} CombosComplete(c: seq<nat>, lo: nat, n: nat, k: nat)
    requires IsCombo(c, lo, n, k)
    ensures c in Combos(lo, n, k)
    decreases n - lo
  {
    if k == 0 {
      assert c == [];
    } else {
      assert lo <= c[0] < n;
      if c[0] == lo {
        ComboTail(c, lo, n, k);
        CombosComplete(c[1..], lo + 1, n, k - 1);
        InPrefixWith([lo], Combos(lo + 1, n, k - 1), c[1..]);
        assert [lo] + c[1..] == c;
      } else {
        ComboWiden(c, lo, n, k);
        CombosComplete(c, lo + 1, n, k);
      }
    }
  }

  /** The list is strictly increasing in lexicographic order. */
  lemma {:induction false} CombosSorted(lo: nat, n: nat, k: nat)
    ensures forall i, j :: 0 <= i < j < |Combos(lo, n, k)| ==> LexLess(Combos(lo, n, k)[i], Combos(lo, n, k)[j])
    decreases n - lo
  {
    if k > 0 && lo < n {
      var a := Combos(lo + 1, n, k - 1);
      var b := Combos(lo + 1, n, k);
      var cs := Combos(lo, n, k);
      CombosSorted(lo + 1, n, k - 1);
      CombosSorted(lo + 1, n, k);
      CombosAreCombos(lo + 1, n, k);
      forall i, j | 0 <= i < j < |cs| ensures LexLess(cs[i], cs[j]) {
        if j < |a| {
          assert cs[i] == [lo] + a[i] && cs[j] == [lo] + a[j];
          assert cs[i][1..] == a[i] && cs[j][1..] == a[j];
        } else if i < |a| {
          assert cs[i] == [lo] + a[i];
          assert cs[j] == b[j - |a|];
          assert IsCombo(b[j - |a|], lo + 1, n, k);
        } else {
          assert cs[i] == b[i - |a|] && cs[j] == b[j - |a|];
        }
      }
    }
  }

  /** Hence no position list is listed twice. */
  lemma CombosDistinct(lo: nat, n: nat, k: nat)
    ensures forall i, j :: 0 <= i < j < |Combos(lo, n, k)| ==> Combos(lo, n, k)[i] != Combos(lo, n, k)[j]
  {
    CombosSorted(lo, n, k);
    forall i, j | 0 <= i < j < |Combos(lo, n, k)| ensures Combos(lo, n, k)[i] != Combos(lo, n, k)[j] {
      LexLessIrreflexive(Combos(lo, n, k)[i]);
    }
  }

  lemma {:induction false} CountTrueAllFalse(n: nat)
    ensures CountTrue(seq(n, j => false)) == 0
  {
    if n > 0 {
      assert seq(n, j => false)[..n - 1] == seq(n - 1, j => false);
      CountTrueAllFalse(n - 1);
    }
  }

  /** The row of an increasing position list has one 1 per position. */
  lemma {:induction false} BitsOfCount(n: nat, c: seq<nat>)
    requires Increasing(c) && forall i :: 0 <= i < |c| ==> c[i] < n
    ensures CountTrue(BitsOf(n, c)) == |c|
  {
    if |c| == 0 {
      assert BitsOf(n, c) == seq(n, j => false);
      CountTrueAllFalse(n);
    } else {
      var init := c[..|c| - 1];
      var x := c[|c| - 1];
      BitsOfCount(n, init);
      assert x !in init;
      assert BitsOf(n, c) == BitsOf(n, init)[x := true];
      CountTrueUpdate(BitsOf(n, init), x, true);
    }
  }

  /** Two increasing lists with the same elements are equal. */
  lemma {:induction false} IncreasingUnique(a: seq<nat>, b: seq<nat>)
    requires |a| == |b| && Increasing(a) && Increasing(b)
    requires forall x :: x in a <==> x in b
    ensures a == b
  {
    if |a| > 0 {
      assert a[0] in b && b[0] in a;
      assert a[0] == b[0];
      forall x ensures x in a[1..] <==> x in b[1..] {
        if x in a[1..] {
          assert x in b && x != b[0];
        }
        if x in b[1..] {
          assert x in a && x != a[0];
        }
      }
      IncreasingUnique(a[1..], b[1..]);
      assert a == [a[0]] + a[1..] && b == [b[0]] + b[1..];
    }
  }

  /**
   * The rows of `build_bitvec_mx(n, k)`: there are binom(n, k) of them, each
   * of length n with exactly k ones, no two equal, every k-subset of the
   * positions 0..n-1 among them, listed in lexicographic order of their
   * set positions.
   */
  lemma BitvecRowsSpec(n: nat, k: nat)
    ensures |BitvecRows(n, k)| == Binom(n, k)
    ensures forall j :: 0 <= j < |BitvecRows(n, k)| ==>
      |BitvecRows(n, k)[j]| == n && CountTrue(BitvecRows(n, k)[j]) == k
    ensures forall i, j :: 0 <= i < j < |BitvecRows(n, k)| ==> BitvecRows(n, k)[i] != BitvecRows(n, k)[j]
    ensures forall c :: IsCombo(c, 0, n, k) ==> BitsOf(n, c) in BitvecRows(n, k)
    ensures forall i, j :: 0 <= i < j < |Combos(0, n, k)| ==> LexLess(Combos(0, n, k)[i], Combos(0, n, k)[j])
  {
    var cs := Combos(0, n, k);
    var rows := BitvecRows(n, k);
    CombosCount(0, n, k);
    CombosAreCombos(0, n, k);
    CombosSorted(0, n, k);
    CombosDistinct(0, n, k);
    forall j | 0 <= j < |rows| ensures |rows[j]| == n && CountTrue(rows[j]) == k {
      BitsOfCount(n, cs[j]);
    }
    forall i, j | 0 <= i < j < |rows| ensures rows[i] != rows[j] {
      if rows[i] == rows[j] {
        forall x ensures x in cs[i] <==> x in cs[j] {
          if x in cs[i] { assert rows[i][x]; }
          if x in cs[j] { assert rows[j][x]; }
        }
        IncreasingUnique(cs[i], cs[j]);
        assert false;
      }
    }
    forall c | IsCombo(c, 0, n, k) ensures BitsOf(n, c) in rows {
      CombosComplete(c, 0, n, k);
      var j :| 0 <= j < |cs| && cs[j] == c;
      assert rows[j] == BitsOf(n, c);
    }
  }

  /** A row is rebuilt from its own set positions. */
  lemma BitsOfPositions(w: Weights)
    ensures BitsOf(|w|, Positions(w)) == w
  {
    var ps := Positions(w);
    forall j | 0 <= j < |w| ensures (j in ps) == w[j] {
      if w[j] {
        PositionsComplete(w, j);
      }
    }
  }

  /** Every row is among the rows of its length and number of ones. */
  lemma BitvecRowsComplete(w: Weights)
    ensures w in BitvecRows(|w|, CountTrue(w))
  {
    BitsOfPositions(w);
    BitvecRowsSpec(|w|, CountTrue(w));
    assert IsCombo(Positions(w), 0, |w|, CountTrue(w));
  }

  lemma RowsOfAppend(n: nat, a: seq<seq<nat>>, b: seq<seq<nat>>)
    ensures RowsOf(n, a + b) == RowsOf(n, a) + RowsOf(n, b)
  {
    assert forall j :: 0 <= j < |a| + |b| ==> RowsOf(n, a + b)[j] == (RowsOf(n, a) + RowsOf(n, b))[j];
  }

  /**
   * What `build_mx(prev, i, ...)` enumerates: `prev` extended by i more
   * positions, each after the last, the first of them at least lo, in the
   * order the nested loops reach them.
   */
  function Enum(prev: seq<nat>, lo: nat, n: nat, i: nat): seq<seq<nat>>
    decreases n - lo
  {
    if i == 0 then [prev]
    else if lo >= n then []
    else Enum(prev + [lo], lo + 1, n, i - 1) + Enum(prev, lo + 1, n, i)
  }

  lemma PrefixWithConcat(prev: seq<nat>, a: seq<seq<nat>>, b: seq<seq<nat>>)
    ensures PrefixWith(prev, a + b) == PrefixWith(prev, a) + PrefixWith(prev, b)
  {
    assert forall j :: 0 <= j < |a| + |b| ==> PrefixWith(prev, a + b)[j] == (PrefixWith(prev, a) + PrefixWith(prev, b))[j];
  }

  lemma PrefixWithNested(prev: seq<nat>, b: nat, cs: seq<seq<nat>>)
    ensures PrefixWith(prev, PrefixWith([b], cs)) == PrefixWith(prev + [b], cs)
  {
    forall j | 0 <= j < |cs| ensures PrefixWith(prev, PrefixWith([b], cs))[j] == PrefixWith(prev + [b], cs)[j] {
      assert prev + ([b] + cs[j]) == (prev + [b]) + cs[j];
    }
  }

  /** The nested loops enumerate `prev` followed by each of `Combos(lo, n, i)`. */
  lemma {:induction false} EnumIsPrefixed(prev: seq<nat>, lo: nat, n: nat, i: nat)
    ensures Enum(prev, lo, n, i) == PrefixWith(prev, Combos(lo, n, i))
    decreases n - lo
  {
    if i == 0 {
      assert PrefixWith(prev, [[]])[0] == prev + [] == prev;
    } else if lo < n {
      var c1 := Combos(lo + 1, n, i - 1);
      EnumIsPrefixed(prev + [lo], lo + 1, n, i - 1);
      EnumIsPrefixed(prev, lo + 1, n, i);
      PrefixWithConcat(prev, PrefixWith([lo], c1), Combos(lo + 1, n, i));
      PrefixWithNested(prev, lo, c1);
    }
  }

  lemma PrefixWithEmpty(cs: seq<seq<nat>>)
    ensures PrefixWith([], cs) == cs
  {
    assert forall j :: 0 <= j < |cs| ==> PrefixWith([], cs)[j] == [] + cs[j] == cs[j];
  }

  /** Too few positions left: nothing to enumerate. */
  lemma {:induction false} EnumEmpty(prev: seq<nat>, lo: nat, n: nat, i: nat)
    requires i >= 1 && lo + i > n
    ensures Enum(prev, lo, n, i) == []
    decreases n - lo
  {
    if lo < n {
      EnumEmpty(prev + [lo], lo + 1, n, i - 1);
      EnumEmpty(prev, lo + 1, n, i);
    }
  }

  /** One turn of an enumeration loop: the block for position b moves from the rest to the done part. */
  lemma EnumStep(prev: seq<nat>, lo: nat, b: nat, n: nat, i: nat, done: seq<seq<nat>>)
    requires i > 0 && b < n
    requires Enum(prev, lo, n, i) == done + Enum(prev, b, n, i)
    ensures Enum(prev, lo, n, i) == (done + Enum(prev + [b], b + 1, n, i - 1)) + Enum(prev, b + 1, n, i)
    ensures |Enum(prev, lo, n, i)| == |done| + |Enum(prev + [b], b + 1, n, i - 1)| + |Enum(prev, b + 1, n, i)|
  {
    var p := Enum(prev + [b], b + 1, n, i - 1);
    assert Enum(prev, b, n, i) == p + Enum(prev, b + 1, n, i);
    assert done + (p + Enum(prev, b + 1, n, i)) == (done + p) + Enum(prev, b + 1, n, i);
  }

  /** `s` is `orig` with `rows` written at positions c..m and nothing else changed. */
  predicate Filled(s: seq<Weights>, orig: seq<Weights>, c: nat, m: nat, rows: seq<Weights>) {
    c <= m <= |orig| && |rows| == m - c && s == orig[..c] + rows + orig[m..]
  }

  /** A recursive call appends its block of rows behind the rows already written. */
  lemma FilledCompose(orig: seq<Weights>, mid: seq<Weights>, s: seq<Weights>, c: nat, m: nat, m2: nat,
                      y: seq<Weights>, x: seq<Weights>)
    requires Filled(mid, orig, c, m, y)
    requires Filled(s, mid, m, m2, x)
    ensures Filled(s, orig, c, m2, y + x)
  {
    assert mid[..m] == orig[..c] + y;
    assert mid[m2..] == orig[m2..];
  }

  lemma FilledOne(orig: seq<Weights>, c: nat, row: Weights)
    requires c < |orig|
    ensures Filled(orig[c := row], orig, c, c + 1, [row])
  {
  }

  /** One turn of the loop in `BuildMx`: the rows for `prev + [bitLoc]` join the rows written so far. */
  lemma BlockStep(orig: seq<Weights>, before: seq<Weights>, after: seq<Weights>, n: nat,
                  counter: nat, next: nat, next': nat, done: seq<seq<nat>>, block: seq<seq<nat>>)
    requires Filled(before, orig, counter, next, RowsOf(n, done))
    requires Filled(after, before, next, next', RowsOf(n, block))
    ensures Filled(after, orig, counter, next', RowsOf(n, done + block))
  {
    FilledCompose(orig, before, after, counter, next, next', RowsOf(n, done), RowsOf(n, block));
    RowsOfAppend(n, done, block);
  }

  function NextFree(prev: seq<nat>): nat
    requires |prev| > 0
  {
    prev[|prev| - 1] + 1
  }

  /**
   * The inner `build_mx(previous_bit_locs, i, counter)`: writes into
   * `mx[counter..]` one row per completion of `prev` by i more positions
   * after its last one, and returns the advanced counter.
   */
  method BuildMx(mx: array<Weights>, n: nat, prev: seq<nat>, i: nat, counter: nat) returns (next: nat)
    requires |prev| > 0
    requires counter + |Enum(prev, NextFree(prev), n, i)| <= mx.Length
    modifies mx
    ensures next == counter + |Enum(prev, NextFree(prev), n, i)|
    ensures Filled(mx[..], old(mx[..]), counter, next, RowsOf(n, Enum(prev, NextFree(prev), n, i)))
    decreases i, 2
  {
    if i == 0 {
      mx[counter] := BitsOf(n, prev);
      assert RowsOf(n, [prev]) == [BitsOf(n, prev)];
      FilledOne(old(mx[..]), counter, BitsOf(n, prev));
      return counter + 1;
    }
    next := BuildLoop(mx, n, prev, i, counter);
  }

  /** The loop of `build_mx` for i >= 1: one recursive call per position of the next bit. */
  method BuildLoop(mx: array<Weights>, n: nat, prev: seq<nat>, i: nat, counter: nat) returns (next: nat)
    requires |prev| > 0 && i > 0
    requires counter + |Enum(prev, NextFree(prev), n, i)| <= mx.Length
    modifies mx
    ensures next == counter + |Enum(prev, NextFree(prev), n, i)|
    ensures Filled(mx[..], old(mx[..]), counter, next, RowsOf(n, Enum(prev, NextFree(prev), n, i)))
    decreases i, 1
  {
    var lo: nat := prev[|prev| - 1] + 1;
    assert lo == NextFree(prev);
    next := counter;
    ghost var orig := mx[..];
    ghost var done: seq<seq<nat>> := [];
    var bitLoc: nat := lo;
    while bitLoc <= n - i
      invariant lo <= bitLoc
      invariant Enum(prev, lo, n, i) == done + Enum(prev, bitLoc, n, i)
      invariant next == counter + |done|
      invariant Filled(mx[..], orig, counter, next, RowsOf(n, done))
      decreases n - bitLoc
    {
      next, done := InnerTurn(mx, n, prev, i, lo, bitLoc, counter, next, orig, done);
      bitLoc := bitLoc + 1;
    }
    EnumEmpty(prev, bitLoc, n, i);
    assert done == Enum(prev, NextFree(prev), n, i);
  }

  /**
   * One turn of the loop in `build_mx`: the recursive call for
   * `prev + [bitLoc]` appends its rows behind those written so far.
   */
  method InnerTurn(mx: array<Weights>, n: nat, prev: seq<nat>, i: nat, lo: nat, bitLoc: nat, counter: nat, next: nat,
                   ghost orig: seq<Weights>, ghost done: seq<seq<nat>>)
    returns (next': nat, ghost done': seq<seq<nat>>)
    requires |prev| > 0 && i > 0 && lo == NextFree(prev) && lo <= bitLoc < n
    requires Enum(prev, lo, n, i) == done + Enum(prev, bitLoc, n, i)
    requires next == counter + |done| && counter + |Enum(prev, lo, n, i)| <= mx.Length
    requires Filled(mx[..], orig, counter, next, RowsOf(n, done))
    modifies mx
    ensures Enum(prev, lo, n, i) == done' + Enum(prev, bitLoc + 1, n, i)
    ensures next' == counter + |done'|
    ensures Filled(mx[..], orig, counter, next', RowsOf(n, done'))
    decreases i, 0
  {
    var prev' := prev + [bitLoc];
    assert NextFree(prev') == bitLoc + 1;
    EnumStep(prev, lo, bitLoc, n, i, done);
    ghost var block := Enum(prev', NextFree(prev'), n, i - 1);
    ghost var before := mx[..];
    next' := BuildMx(mx, n, prev', i - 1, next);
    ghost var after := mx[..];
    BlockStep(orig, before, after, n, counter, next, next', done, block);
    done' := done + block;
  }

  /** One turn of the outer loop of `build_bitvec_mx`: the rows whose first set bit is `bitLoc0`. */
  method OuterTurn(mx: array<Weights>, n: nat, k: nat, bitLoc0: nat, counter: nat,
                   ghost zeros: seq<Weights>, ghost done: seq<seq<nat>>)
    returns (next: nat, ghost done': seq<seq<nat>>)
    requires 0 < k && bitLoc0 < n
    requires Enum([], 0, n, k) == done + Enum([], bitLoc0, n, k)
    requires counter == |done| && |Enum([], 0, n, k)| == mx.Length
    requires Filled(mx[..], zeros, 0, counter, RowsOf(n, done))
    modifies mx
    ensures Enum([], 0, n, k) == done' + Enum([], bitLoc0 + 1, n, k)
    ensures next == |done'|
    ensures Filled(mx[..], zeros, 0, next, RowsOf(n, done'))
  {
    var prev := [bitLoc0];
    assert [] + [bitLoc0] == prev;
    assert NextFree(prev) == bitLoc0 + 1;
    EnumStep([], 0, bitLoc0, n, k, done);
    ghost var block := Enum(prev, NextFree(prev), n, k - 1);
    ghost var before := mx[..];
    next := BuildMx(mx, n, prev, k - 1, counter);
    ghost var after := mx[..];
    BlockStep(zeros, before, after, n, 0, counter, next, done, block);
    done' := done + block;
  }

  /**
   * `build_bitvec_mx(n, k)`. A negative length is refused by the matrix
   * allocation; a Hamming weight of zero or less sends the nested-loop
   * recursion down forever; otherwise the rows are `BitvecRows(n, k)`
   * (none when k > n).
   */
  method BuildBitvecMx(n: int, k: int) returns (r: Result<seq<Weights>>)
    ensures n < 0 ==> r == Err(ValueError("negative dimensions are not allowed"))
    ensures 0 <= n && k <= 0 ==> r == Err(RecursionError)
    ensures 0 <= n && 0 < k ==> r == Ok(BitvecRows(n, k))
  {
    if n < 0 {
      return Err(ValueError("negative dimensions are not allowed"));
    }
    if k <= 0 {
      return Err(RecursionError);
    }
    CombosCount(0, n, k);
    EnumIsPrefixed([], 0, n, k);
    PrefixWithEmpty(Combos(0, n, k));
    var mx := new Weights[Binom(n, k)](_ => seq(n, _ => false));
    var diff := n - k;
    var counter := 0;
    ghost var zeros := mx[..];
    ghost var done: seq<seq<nat>> := [];
    var bitLoc0 := 0;
    while bitLoc0 <= diff
      invariant 0 <= bitLoc0
      invariant Enum([], 0, n, k) == done + Enum([], bitLoc0, n, k)
      invariant counter == |done|
      invariant Filled(mx[..], zeros, 0, counter, RowsOf(n, done))
      decreases n - bitLoc0
    {
      counter, done := OuterTurn(mx, n, k, bitLoc0, counter, zeros, done);
      bitLoc0 := bitLoc0 + 1;
    }
    EnumEmpty([], bitLoc0, n, k);
    assert done == Combos(0, n, k);
    assert mx[..] == RowsOf(n, done) by {
      assert counter == mx.Length;
      assert zeros[..0] == [] && zeros[counter..] == [];
    }
    r := Ok(mx[..]);
  }

  /**
   * The matrix `build_bitvec_mx(n, k)` is documented to produce, for every
   * weight: all rows of length n with exactly k ones, binom(n, k) of them
   * (none for a negative weight), and a single all-zero row for weight 0.
   * Where the recursion terminates it agrees with `BuildBitvecMx`.
   */
  function IntendedBitvecMx(n: int, k: int): (r: Result<seq<Weights>>)
    ensures n < 0 <==> r.Err?
    ensures r.Ok? ==> |r.value| == if k < 0 then 0 else Binom(n, k)
    ensures r.Ok? ==> forall j :: 0 <= j < |r.value| ==> |r.value[j]| == n && CountTrue(r.value[j]) == k
    ensures r.Ok? ==> forall i, j :: 0 <= i < j < |r.value| ==> r.value[i] != r.value[j]
    ensures 0 <= n && 0 < k ==> r == Ok(BitvecRows(n, k))
  {
    if n < 0 then Err(ValueError("negative dimensions are not allowed"))
    else if k < 0 then Ok([])
    else
      BitvecRowsSpec(n, k);
      Ok(BitvecRows(n, k))
  }

  /** Weight 0: the intended matrix is the single all-zero row. */
  lemma IntendedWeightZero(n: nat)
    ensures IntendedBitvecMx(n, 0) == Ok([seq(n, _ => false)])
  {
    assert Combos(0, n, 0) == [[]];
    assert BitsOf(n, []) == seq(n, _ => false);
    assert RowsOf(n, [[]]) == [BitsOf(n, [])];
    assert BitvecRows(n, 0) == [seq(n, _ => false)];
  }
}
