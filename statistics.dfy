/**
 * What the comparison of a table computes: the first row at which some
 * candidate disagrees with the golden column 0, and per candidate the number
 * of disagreeing rows, the match percentage and the fingerprint of the pair.
 */
module Statistics {
  import opened Wrappers
  import opened Columns

  /** Every column has exactly `size` rows. */
  predicate Rectangular(cols: seq<Column>, size: nat) {
    forall c :: 0 <= c < |cols| ==> Length(cols[c]) == size
  }

  /** A table the comparison can run on: a golden column, one length, one kind. */
  predicate Comparable(cols: seq<Column>, size: nat) {
    |cols| >= 1 && Rectangular(cols, size) && AllSameKind(cols)
  }

  /** Some data column disagrees with column 0 at row `i`. */
  predicate RowDisagrees(cols: seq<Column>, size: nat, i: nat)
    requires Comparable(cols, size) && i < size
  {
    exists c :: 0 <= c < |cols| && Disagree(cols[0], cols[c], i)
  }

  /** The first row at or after `from` where some column disagrees, if any. */
  function FirstMismatchFrom(cols: seq<Column>, size: nat, from: nat): (r: Option<nat>)
    requires Comparable(cols, size)
    decreases size - from
    ensures r.None? <==> forall i :: from <= i < size ==> !RowDisagrees(cols, size, i)
    ensures r.Some? ==> (from <= r.value < size && RowDisagrees(cols, size, r.value)
      && forall i :: from <= i < r.value ==> !RowDisagrees(cols, size, i))
  {
    if from >= size then None
    else if RowDisagrees(cols, size, from) then Some(from)
    else FirstMismatchFrom(cols, size, from + 1)
  }

  /** The smallest disagreeing row, or none when every row agrees. */
  function FirstMismatch(cols: seq<Column>, size: nat): (r: Option<nat>)
    requires Comparable(cols, size)
    ensures r.None? <==> forall i :: 0 <= i < size ==> !RowDisagrees(cols, size, i)
    ensures r.Some? ==> (r.value < size && RowDisagrees(cols, size, r.value)
      && forall i :: 0 <= i < r.value ==> !RowDisagrees(cols, size, i))
  {
    FirstMismatchFrom(cols, size, 0)
  }

  /** How many of the first `n` rows of `col` disagree with `ref`. */
  function MismatchCount(ref: Column, col: Column, n: nat): (r: nat)
    requires KindOf(ref) == KindOf(col) && n <= Length(ref) && n <= Length(col)
    ensures r <= n
    ensures r == 0 <==> forall i :: 0 <= i < n ==> !Disagree(ref, col, i)
    ensures r == n <==> forall i :: 0 <= i < n ==> Disagree(ref, col, i)
  {
    if n == 0 then 0
    else MismatchCount(ref, col, n - 1) + (if Disagree(ref, col, n - 1) then 1 else 0)
  }

  /** 100 * (1 - count / size): the share of agreeing rows, in percent. */
  function MatchPercent(count: nat, size: nat): (r: real)
    requires count <= size && size >= 1
    ensures 0.0 <= r <= 100.0
    ensures r == 100.0 <==> count == 0
    ensures r == 0.0 <==> count == size
    ensures r * size as real == 100.0 * (size - count) as real
  {
    100.0 * (1.0 - count as real / size as real)
  }

  /** The values fingerprinted for a candidate: column 0, then the candidate, as doubles. */
  function HashInput(ref: Column, col: Column): (r: seq<Float>)
    ensures |r| == Length(ref) + Length(col)
    ensures r[..Length(ref)] == ToDoubles(ref) && r[Length(ref)..] == ToDoubles(col)
  {
    ToDoubles(ref) + ToDoubles(col)
  }

  /** TestStatistic::Difference: the comparison of one candidate with column 0. */
  datatype Difference = Difference(mismatchCount: nat, matchPercent: real, diffHash: Option<string>)

  /** TestStatistic: the first disagreeing row and one Difference per candidate. */
  datatype TestStatistic = TestStatistic(firstWrongIndex: Option<nat>, diffs: seq<Difference>)

  /**
   * The Difference of candidate `col`: its mismatch count and match percent,
   * and the digest of the pair only when some row mismatches.
   */
  function DifferenceOf(ref: Column, col: Column, size: nat, digest: seq<Float> -> string): (d: Difference)
    requires KindOf(ref) == KindOf(col) && Length(ref) == size && Length(col) == size && size >= 1
    ensures d.mismatchCount <= size
    ensures d.mismatchCount == 0 <==> forall i :: 0 <= i < size ==> !Disagree(ref, col, i)
    ensures d.matchPercent == 100.0 <==> d.mismatchCount == 0
    ensures d.diffHash.Some? <==> d.mismatchCount != 0
    ensures d.diffHash.Some? ==> d.diffHash.value == digest(HashInput(ref, col))
  {
    var count := MismatchCount(ref, col, size);
    Difference(count, MatchPercent(count, size),
               if count != 0 then Some(digest(HashInput(ref, col))) else None)
  }

  /** A prefix one element longer is the shorter prefix and that element. */
  lemma PrefixStep<T>(s: seq<T>, k: nat)
    requires k < |s|
    ensures s[..k + 1] == s[..k] + [s[k]]
  {
  }

  /** A count, its match percent and the fingerprint taken when the count is not zero make the Difference of a candidate. */
  lemma DifferenceFrom(ref: Column, col: Column, size: nat, digest: seq<Float> -> string, count: nat, hash: Option<string>)
    requires KindOf(ref) == KindOf(col) && Length(ref) == size && Length(col) == size && size >= 1
    requires count == MismatchCount(ref, col, size)
    requires hash == if count != 0 then Some(digest(HashInput(ref, col))) else None
    ensures Difference(count, MatchPercent(count, size), hash) == DifferenceOf(ref, col, size, digest)
  {
  }

  /** The statistics of a comparable table of `size` >= 1 rows: one Difference per candidate, in column order. */
  function StatisticsOf(cols: seq<Column>, size: nat, digest: seq<Float> -> string): (st: TestStatistic)
    requires Comparable(cols, size) && size >= 1
    ensures st.firstWrongIndex == FirstMismatch(cols, size)
    ensures |st.diffs| == |cols| - 1
    ensures forall c :: 1 <= c < |cols| ==> st.diffs[c - 1] == DifferenceOf(cols[0], cols[c], size, digest)
  {
    TestStatistic(FirstMismatch(cols, size),
      seq(|cols| - 1, d requires 0 <= d < |cols| - 1 => DifferenceOf(cols[0], cols[d + 1], size, digest)))
  }

  /**
   * The table passes exactly when every candidate's mismatch count is zero
   * (column 0 never disagrees with itself), and then no fingerprint is taken.
   */
  lemma PassIffNoMismatch(cols: seq<Column>, size: nat, digest: seq<Float> -> string)
    requires Comparable(cols, size) && size >= 1
    ensures var st := StatisticsOf(cols, size, digest);
      st.firstWrongIndex.None? <==> forall d :: 0 <= d < |st.diffs| ==> st.diffs[d].mismatchCount == 0
    ensures var st := StatisticsOf(cols, size, digest);
      st.firstWrongIndex.None? <==> forall d :: 0 <= d < |st.diffs| ==> st.diffs[d].diffHash.None?
  {
    var st := StatisticsOf(cols, size, digest);
    if st.firstWrongIndex.None? {
      forall d | 0 <= d < |st.diffs|
        ensures st.diffs[d].mismatchCount == 0 && st.diffs[d].diffHash.None?
      {
        var col := cols[d + 1];
        assert st.diffs[d] == DifferenceOf(cols[0], col, size, digest);
        forall i | 0 <= i < size
          ensures !Disagree(cols[0], col, i)
        {
          assert !RowDisagrees(cols, size, i);
        }
      }
    } else {
      var i := st.firstWrongIndex.value;
      var c :| 0 <= c < |cols| && Disagree(cols[0], cols[c], i);
      assert c != 0;
      assert st.diffs[c - 1] == DifferenceOf(cols[0], cols[c], size, digest);
      assert st.diffs[c - 1].mismatchCount != 0;
    }
  }

  /**
   * A worked case: the golden doubles [1.0, 2.0, 3.0] against the candidate
   * [1.0, 2.5, 3.0] mismatch at row 1 only, so one of three rows differs
   * and two thirds of the rows match.
   */
  lemma OneOfThreeRows(digest: seq<Float> -> string)
    ensures var cols := [DoubleColumn([Finite(1.0), Finite(2.0), Finite(3.0)]),
                         DoubleColumn([Finite(1.0), Finite(2.5), Finite(3.0)])];
      var st := StatisticsOf(cols, 3, digest);
      st.firstWrongIndex == Some(1) && |st.diffs| == 1
      && st.diffs[0].mismatchCount == 1 && st.diffs[0].matchPercent * 3.0 == 200.0
  {
    var cols := [DoubleColumn([Finite(1.0), Finite(2.0), Finite(3.0)]),
                 DoubleColumn([Finite(1.0), Finite(2.5), Finite(3.0)])];
    assert Comparable(cols, 3);
    assert !RowDisagrees(cols, 3, 0) by {
      assert !Disagree(cols[0], cols[1], 0);
    }
    assert RowDisagrees(cols, 3, 1) by {
      assert Disagree(cols[0], cols[1], 1);
    }
    assert FirstMismatchFrom(cols, 3, 1) == Some(1);
    var st := StatisticsOf(cols, 3, digest);
    assert st.diffs[0] == DifferenceOf(cols[0], cols[1], 3, digest);
    assert MismatchCount(cols[0], cols[1], 3) == 1 by {
      assert !Disagree(cols[0], cols[1], 0);
      assert Disagree(cols[0], cols[1], 1);
      assert !Disagree(cols[0], cols[1], 2);
    }
  }
}
