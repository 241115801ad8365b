/** Quantile scoring as the RFM pages use it: `Series.rank(method="first")`
    and `pd.qcut(col, 5, labels=...)`. Where pandas places the five bins of a
    column (linearly interpolated quantiles) is taken as given, as the
    `quantiles` argument; what qcut does with those edges is modelled: the
    refusal of repeated edges and the right-closed bins. */
module Quantiles {

  import opened Tables
  import opened Segmentation

  /** The six edges qcut cuts a column at: its 0, 20, 40, 60, 80 and 100
      percent quantiles. */
  datatype Edges = Edges(e0: real, e1: real, e2: real, e3: real, e4: real, e5: real)
  {
    function Cuts(): seq<real>
    {
      [e0, e1, e2, e3, e4, e5]
    }

    /** qcut's default `duplicates='raise'` accepts only six different edges. */
    predicate Unique()
    {
      forall i, j | 0 <= i < j < 6 :: Cuts()[i] != Cuts()[j]
    }
  }

  /** The smallest value of a column. */
  function Smallest(col: seq<int>): (m: int)
    requires |col| > 0
    ensures m in col
    ensures forall v :: v in col ==> m <= v
  {
    if |col| == 1 then col[0]
    else
      assert col == [col[0]] + col[1..];
      var rest := Smallest(col[1..]);
      if col[0] <= rest then col[0] else rest
  }

  /** The largest value of a column. */
  function Largest(col: seq<int>): (m: int)
    requires |col| > 0
    ensures m in col
    ensures forall v :: v in col ==> v <= m
  {
    if |col| == 1 then col[0]
    else
      assert col == [col[0]] + col[1..];
      var rest := Largest(col[1..]);
      if col[0] >= rest then col[0] else rest
  }

  /** What every quantile computation guarantees, whatever its
      interpolation: the 0 percent quantile of a column is its minimum and
      the 100 percent quantile its maximum. */
  ghost predicate SpansColumn(quantiles: seq<int> -> Edges)
  {
    forall col :: |col| > 0 ==>
      quantiles(col).e0 == Smallest(col) as real && quantiles(col).e5 == Largest(col) as real
  }

  /** The bin qcut puts `v` in: bins are right-closed, (e0, e1] widened to
      take in e0, then (e1, e2], ..., (e4, e5]. For edges in order, the
      postcondition places `v` in the half-open interval of its bin. */
  function Bin(v: int, e: Edges): (b: Score)
    ensures e.e1 <= e.e2 <= e.e3 <= e.e4 ==>
      (b == 1 || e.Cuts()[b - 1] < v as real) && (b == 5 || v as real <= e.Cuts()[b])
  {
    var x := v as real;
    1 + (if e.e1 < x then 1 else 0) + (if e.e2 < x then 1 else 0)
      + (if e.e3 < x then 1 else 0) + (if e.e4 < x then 1 else 0)
  }

  /** A larger value never lands in a lower bin, whatever the edges. */
  lemma BinMonotone(v: int, w: int, e: Edges)
    requires v <= w
    ensures Bin(v, e) <= Bin(w, e)
  {
  }

  /** `pd.qcut(col, 5, labels=[1, 2, 3, 4, 5])` with the edges `quantiles`
      gives for `col`; `None` is the ValueError qcut raises when two edges
      coincide. */
  function QCut(col: seq<int>, quantiles: seq<int> -> Edges): (r: Option<seq<Score>>)
    ensures r.None? <==> !quantiles(col).Unique()
    ensures r.Some? ==> |r.value| == |col|
    ensures r.Some? ==> forall i :: 0 <= i < |col| ==> r.value[i] == Bin(col[i], quantiles(col))
  {
    var e := quantiles(col);
    if !e.Unique() then None
    else Some(seq(|col|, i requires 0 <= i < |col| => Bin(col[i], e)))
  }

  /** Binning with equal edges keeps the order of the values. */
  lemma QCutMonotone(col: seq<int>, quantiles: seq<int> -> Edges, i: nat, j: nat)
    requires i < |col| && j < |col| && col[i] <= col[j]
    requires QCut(col, quantiles).Some?
    ensures |QCut(col, quantiles).value| == |col|
    ensures QCut(col, quantiles).value[i] <= QCut(col, quantiles).value[j]
  {
    BinMonotone(col[i], col[j], quantiles(col));
  }

  /** A column whose values are all the same (a single group among them)
      has its first and last edge equal, and qcut refuses it. */
  lemma ConstantColumnRefused(col: seq<int>, quantiles: seq<int> -> Edges)
    requires SpansColumn(quantiles)
    requires |col| > 0 && forall i :: 0 <= i < |col| ==> col[i] == col[0]
    ensures QCut(col, quantiles).None?
  {
    var e := quantiles(col);
    assert e.Cuts()[0] == e.Cuts()[5];
  }

  /** The reversed labels `[5, 4, 3, 2, 1]`. */
  function ReverseLabel(b: Score): (shown: Score)
    ensures shown == [5, 4, 3, 2, 1][b - 1]
  {
    6 - b
  }

  /** Element `j` comes before element `i` in `rank(method="first")`: it has
      a smaller value, or the same value and an earlier position. */
  predicate RanksBefore(s: seq<int>, j: nat, i: nat)
    requires j < |s| && i < |s|
  {
    s[j] < s[i] || (s[j] == s[i] && j < i)
  }

  /** How many of the first `n` elements come before element `i`. */
  function CountRankedBefore(s: seq<int>, i: nat, n: nat): (c: nat)
    requires i < |s| && n <= |s|
    ensures c <= n
    ensures i < n ==> c < n
  {
    if n == 0 then 0
    else CountRankedBefore(s, i, n - 1) + (if RanksBefore(s, n - 1, i) then 1 else 0)
  }

  /** `rank(method="first")` of element `i`. */
  function Rank(s: seq<int>, i: nat): (r: int)
    requires i < |s|
    ensures 1 <= r <= |s|
  {
    1 + CountRankedBefore(s, i, |s|)
  }

  function RankFirst(s: seq<int>): (r: seq<int>)
    ensures |r| == |s|
  {
    seq(|s|, i requires 0 <= i < |s| => Rank(s, i))
  }

  lemma {:induction false} CountRankedBeforeMonotone(s: seq<int>, i: nat, j: nat, n: nat)
    requires i < |s| && j < |s| && n <= |s|
    requires RanksBefore(s, i, j)
    ensures CountRankedBefore(s, i, n) + (if i < n then 1 else 0) <= CountRankedBefore(s, j, n)
  {
    if n > 0 {
      CountRankedBeforeMonotone(s, i, j, n - 1);
    }
  }

  /** Ranks follow the value, and among equal values the position. */
  lemma RankOrder(s: seq<int>, i: nat, j: nat)
    requires i < |s| && j < |s| && RanksBefore(s, i, j)
    ensures Rank(s, i) < Rank(s, j)
  {
    CountRankedBeforeMonotone(s, i, j, |s|);
  }

  /** The ranks are the numbers 1..n, each given once: ties get different
      ranks. */
  lemma RanksDistinct(s: seq<int>)
    ensures Distinct(RankFirst(s))
    ensures forall i :: 0 <= i < |s| ==> 1 <= RankFirst(s)[i] <= |s|
  {
    forall i, j | 0 <= i < j < |s| ensures RankFirst(s)[i] != RankFirst(s)[j] {
      if RanksBefore(s, i, j) { RankOrder(s, i, j); } else { RankOrder(s, j, i); }
    }
  }
}
