/** The RFM computation both RFM pages run once their table and reference
    date are fixed: group by (branch, route, CustomerName), aggregate
    Recency, Frequency and Monetary, score each column 1..5, join the scores
    into `RFM_Score` and name the segment. */
module RfmEngine {

  import opened Tables
  import opened Segmentation
  import opened Quantiles

  /** The `groupby(['branch', 'route', 'CustomerName'])` key. */
  datatype Key = Key(branch: string, route: string, customer: string)

  function KeyOf(t: Txn): Key
  {
    Key(t.branch, t.route, t.customer)
  }

  /** Python's order on key tuples, the order `groupby` lists groups in. */
  predicate KeyLess(a: Key, b: Key)
  {
    || StrLess(a.branch, b.branch)
    || (a.branch == b.branch && StrLess(a.route, b.route))
    || (a.branch == b.branch && a.route == b.route && StrLess(a.customer, b.customer))
  }

  lemma KeyLessIsAsymmetric()
    ensures Asymmetric(KeyLess)
  {
    StrLessIsAsymmetric();
  }

  /** Of two different keys one comes first, so `groupby` has one order. */
  lemma KeyLessTotal(a: Key, b: Key)
    ensures a != b ==> KeyLess(a, b) || KeyLess(b, a)
  {
    StrLessTotal(a.branch, b.branch);
    StrLessTotal(a.route, b.route);
    StrLessTotal(a.customer, b.customer);
  }

  /** The keys that occur in a table. */
  function KeySet(rows: seq<Txn>): set<Key>
  {
    set t | t in rows :: KeyOf(t)
  }

  /** The groups of a table in `groupby` order: every key that occurs, once
      each, in ascending key order. */
  function GroupKeys(rows: seq<Txn>): (ks: seq<Key>)
    ensures Distinct(ks)
    ensures forall k :: k in ks <==> k in KeySet(rows)
    ensures SortedBy(ks, KeyLess)
  {
    KeyLessIsAsymmetric();
    SortBy(DistinctBy(rows, KeyOf), KeyLess)
  }

  function HasKey(k: Key): Txn -> bool
  {
    (t: Txn) => KeyOf(t) == k
  }

  function InKeys(ks: set<Key>): Txn -> bool
  {
    (t: Txn) => KeyOf(t) in ks
  }

  function Group(rows: seq<Txn>, k: Key): (g: seq<Txn>)
    ensures forall t :: t in g <==> t in rows && KeyOf(t) == k
    ensures k in KeySet(rows) ==> |g| > 0
  {
    var g := Filter(rows, HasKey(k));
    assert k in KeySet(rows) ==> |g| > 0 by {
      if k in KeySet(rows) {
        var t :| t in rows && KeyOf(t) == k;
        assert t in g;
      }
    }
    g
  }

  /** A row of `groupby(...).agg(...)` once its columns are renamed Recency,
      Frequency and Monetary. */
  datatype Aggregate = Aggregate(key: Key, recency: int, frequency: int, monetary: int)

  /** The aggregate of one group. Recency, `(today - date.max()).days`, is
      the shortest gap from a transaction of the group to `today`;
      Frequency, the number of distinct invoices, lies between one and the
      number of transactions; Monetary is the group's `NetAmount` sum. */
  function AggregateOf(rows: seq<Txn>, k: Key, today: int): (a: Aggregate)
    requires k in KeySet(rows)
    ensures a.key == k
    ensures forall t :: t in Group(rows, k) ==> a.recency <= today - t.date
    ensures exists t :: t in Group(rows, k) && a.recency == today - t.date
    ensures a.frequency == |set t | t in rows && KeyOf(t) == k :: t.invoice|
    ensures 1 <= a.frequency <= |Group(rows, k)|
  {
    var g := Group(rows, k);
    InvoiceCountBounds(g);
    assert Invoices(g) == set t | t in rows && KeyOf(t) == k :: t.invoice;
    Aggregate(k, today - LatestRow(g).date, |Invoices(g)|, NetTotal(g))
  }

  /** The aggregated table, one row per group in `groupby` order. */
  function Aggregates(rows: seq<Txn>, today: int): (aggs: seq<Aggregate>)
    ensures |aggs| == |GroupKeys(rows)|
    ensures forall i :: 0 <= i < |aggs| ==> aggs[i] == AggregateOf(rows, GroupKeys(rows)[i], today)
  {
    var ks := GroupKeys(rows);
    seq(|ks|, i requires 0 <= i < |ks| => AggregateOf(rows, ks[i], today))
  }

  /** Each key of the table is exactly one row of the aggregate. */
  lemma AggregateKeys(rows: seq<Txn>, today: int)
    ensures var aggs := Aggregates(rows, today);
      && (forall i, j :: 0 <= i < j < |aggs| ==> aggs[i].key != aggs[j].key)
      && (set a | a in aggs :: a.key) == KeySet(rows)
  {
    var aggs, ks := Aggregates(rows, today), GroupKeys(rows);
    assert forall i :: 0 <= i < |aggs| ==> aggs[i].key == ks[i];
    forall k | k in KeySet(rows) ensures k in (set a | a in aggs :: a.key) {
      var i :| 0 <= i < |ks| && ks[i] == k;
      assert aggs[i] in aggs;
    }
  }

  /** A reference date at least `gap` days after every transaction makes
      every Recency at least `gap`. */
  lemma AggregateRecencyAtLeast(rows: seq<Txn>, today: int, gap: int)
    requires forall t :: t in rows ==> t.date + gap <= today
    ensures forall a :: a in Aggregates(rows, today) ==> a.recency >= gap
  {
    var aggs, ks := Aggregates(rows, today), GroupKeys(rows);
    forall i | 0 <= i < |aggs| ensures aggs[i].recency >= gap {
      var t :| t in Group(rows, ks[i]) && aggs[i].recency == today - t.date;
    }
  }

  /** Moving the reference date `d` days later adds `d` to every Recency
      and changes nothing else. */
  lemma AggregatesShift(rows: seq<Txn>, today: int, d: int)
    ensures |Aggregates(rows, today + d)| == |Aggregates(rows, today)|
    ensures forall i :: 0 <= i < |Aggregates(rows, today)| ==>
      Aggregates(rows, today + d)[i] == Aggregates(rows, today)[i].(recency := Aggregates(rows, today)[i].recency + d)
  {
  }

  function Sum(xs: seq<int>): int
  {
    if xs == [] then 0 else xs[0] + Sum(xs[1..])
  }

  function KeysOf(ks: seq<Key>): set<Key>
  {
    set k | k in ks
  }

  /** Amounts that are the `NetAmount` sums of different keys add up to the
      `NetAmount` of the rows with any of those keys. */
  lemma {:induction false} KeyTotals(rows: seq<Txn>, ks: seq<Key>, ms: seq<int>)
    requires Distinct(ks) && |ms| == |ks|
    requires forall i :: 0 <= i < |ks| ==> ms[i] == NetTotal(Filter(rows, HasKey(ks[i])))
    ensures Sum(ms) == NetTotal(Filter(rows, InKeys(KeysOf(ks))))
  {
    if ks == [] {
      FilterNone(rows, InKeys(KeysOf(ks)));
    } else {
      KeyTotals(rows, ks[1..], ms[1..]);
      assert ks == [ks[0]] + ks[1..];
      assert KeysOf(ks) == {ks[0]} + KeysOf(ks[1..]);
      assert ks[0] !in KeysOf(ks[1..]) by {
        forall i | 1 <= i < |ks| ensures ks[i] != ks[0] { }
      }
      NetTotalSplit(rows, HasKey(ks[0]), InKeys(KeysOf(ks[1..])), InKeys(KeysOf(ks)));
    }
  }

  /** The Monetary column adds up to the `NetAmount` of the whole table:
      every row is counted in exactly one group. */
  lemma MonetaryAddsUp(rows: seq<Txn>, today: int)
    ensures Sum(Monetaries(Aggregates(rows, today))) == NetTotal(rows)
  {
    var aggs, ks := Aggregates(rows, today), GroupKeys(rows);
    var ms := Monetaries(aggs);
    forall i | 0 <= i < |ks| ensures ms[i] == NetTotal(Filter(rows, HasKey(ks[i]))) {
      assert aggs[i] == AggregateOf(rows, ks[i], today);
    }
    KeyTotals(rows, ks, ms);
    FilterKeepsAll(rows, InKeys(KeysOf(ks)));
  }

  datatype RfmColumn = RecencyColumn | FrequencyColumn | MonetaryColumn

  /** Why a page shows no RFM table: the selection matched no rows, or qcut
      refused the edges of a column. */
  datatype RfmError = NoData | DuplicateBinEdges(column: RfmColumn)

  /** A row of the finished `rfm` table, after `reset_index()`. */
  datatype RfmRecord = RfmRecord(
    key: Key,
    recency: int,
    frequency: int,
    monetary: int,
    rScore: Score,
    fScore: Score,
    mScore: Score,
    rfmCode: string,
    segment: Segment)

  function Recencies(aggs: seq<Aggregate>): seq<int>
  {
    seq(|aggs|, i requires 0 <= i < |aggs| => aggs[i].recency)
  }

  function Frequencies(aggs: seq<Aggregate>): seq<int>
  {
    seq(|aggs|, i requires 0 <= i < |aggs| => aggs[i].frequency)
  }

  function Monetaries(aggs: seq<Aggregate>): seq<int>
  {
    seq(|aggs|, i requires 0 <= i < |aggs| => aggs[i].monetary)
  }

  function Scored(a: Aggregate, r: Score, f: Score, m: Score): RfmRecord
  {
    RfmRecord(a.key, a.recency, a.frequency, a.monetary, r, f, m, RfmCode(r, f, m), Classify(r, f, m))
  }

  /** The labels `[5, 4, 3, 2, 1]` put on the bins of a column. */
  function Reversed(bins: seq<Score>): (r: seq<Score>)
    ensures |r| == |bins|
  {
    seq(|bins|, i requires 0 <= i < |bins| => ReverseLabel(bins[i]))
  }

  /** The scored rows: each aggregate row with its three scores, its code and
      its segment. */
  function Assemble(aggs: seq<Aggregate>, r: seq<Score>, f: seq<Score>, m: seq<Score>): (t: seq<RfmRecord>)
    requires |r| == |aggs| && |f| == |aggs| && |m| == |aggs|
    ensures |t| == |aggs|
  {
    seq(|aggs|, i requires 0 <= i < |aggs| => Scored(aggs[i], r[i], f[i], m[i]))
  }

  /** The scoring steps: R_Score from Recency with reversed labels, F_Score
      from the first-method rank of Frequency, M_Score from Monetary, in
      that order, the first refused column ending the computation; then
      `RFM_Score` and `Segment`. */
  function ScoreTable(aggs: seq<Aggregate>, quantiles: seq<int> -> Edges): (r: Result<seq<RfmRecord>, RfmError>)
    ensures r.Ok? <==>
      QCut(Recencies(aggs), quantiles).Some? && QCut(RankFirst(Frequencies(aggs)), quantiles).Some? &&
      QCut(Monetaries(aggs), quantiles).Some?
    ensures r == Err(DuplicateBinEdges(RecencyColumn)) <==> QCut(Recencies(aggs), quantiles).None?
    ensures r.Err? ==> r.error.DuplicateBinEdges?
    ensures r.Ok? ==> |r.value| == |aggs|
  {
    var rBins := QCut(Recencies(aggs), quantiles);
    if rBins.None? then Err(DuplicateBinEdges(RecencyColumn))
    else
      var fBins := QCut(RankFirst(Frequencies(aggs)), quantiles);
      if fBins.None? then Err(DuplicateBinEdges(FrequencyColumn))
      else
        var mBins := QCut(Monetaries(aggs), quantiles);
        if mBins.None? then Err(DuplicateBinEdges(MonetaryColumn))
        else Ok(Assemble(aggs, Reversed(rBins.value), fBins.value, mBins.value))
  }

  /** The RFM table of `rows` seen from the reference date `today`. */
  function ComputeRfm(rows: seq<Txn>, today: int, quantiles: seq<int> -> Edges): (r: Result<seq<RfmRecord>, RfmError>)
    ensures r.Err? ==> r.error.DuplicateBinEdges?
    ensures r.Ok? ==> |r.value| == |GroupKeys(rows)|
  {
    ScoreTable(Aggregates(rows, today), quantiles)
  }

  /** Each row of a computed table is its aggregate row with three scores,
      the `RFM_Score` of three digits that reads back to them, and the
      segment the ordered table gives them. */
  lemma RfmRowsExtendAggregates(rows: seq<Txn>, today: int, quantiles: seq<int> -> Edges)
    requires ComputeRfm(rows, today, quantiles).Ok?
    ensures var t, aggs := ComputeRfm(rows, today, quantiles).value, Aggregates(rows, today);
      && |t| == |aggs|
      && forall i :: 0 <= i < |t| ==>
           && Aggregate(t[i].key, t[i].recency, t[i].frequency, t[i].monetary) == aggs[i]
           && |t[i].rfmCode| == 3
           && ParseCode(t[i].rfmCode) == Some((t[i].rScore, t[i].fScore, t[i].mScore))
           && t[i].segment == Classify(t[i].rScore, t[i].fScore, t[i].mScore)
           && t[i].segment != LostCustomers
  {
  }

  /** A computed table has one row per group, in `groupby` order, each
      with Frequency at least one. */
  lemma RfmTableKeys(rows: seq<Txn>, today: int, quantiles: seq<int> -> Edges)
    requires ComputeRfm(rows, today, quantiles).Ok?
    ensures var t := ComputeRfm(rows, today, quantiles).value;
      && |t| == |GroupKeys(rows)|
      && forall i :: 0 <= i < |t| ==> t[i].key == GroupKeys(rows)[i] && t[i].frequency >= 1
  {
    RfmRowsExtendAggregates(rows, today, quantiles);
  }

  /** With a reference date at least `gap` days after every transaction,
      every Recency of the table is at least `gap`. */
  lemma RecencyAtLeast(rows: seq<Txn>, today: int, quantiles: seq<int> -> Edges, gap: int)
    requires ComputeRfm(rows, today, quantiles).Ok?
    requires forall t :: t in rows ==> t.date + gap <= today
    ensures forall r :: r in ComputeRfm(rows, today, quantiles).value ==> r.recency >= gap
  {
    AggregateRecencyAtLeast(rows, today, gap);
    RfmRowsExtendAggregates(rows, today, quantiles);
    var aggs := Aggregates(rows, today);
    var t := ComputeRfm(rows, today, quantiles).value;
    forall i | 0 <= i < |t| ensures t[i].recency >= gap {
      assert aggs[i] in aggs;
    }
  }

  /** When every group of a non-empty table has the same Recency (in
      particular when the table has one group) the R column cannot be
      binned and no table is produced. */
  lemma SameRecencyRefused(rows: seq<Txn>, today: int, quantiles: seq<int> -> Edges)
    requires SpansColumn(quantiles)
    requires |rows| > 0
    requires forall i :: 0 <= i < |Aggregates(rows, today)| ==>
      Aggregates(rows, today)[i].recency == Aggregates(rows, today)[0].recency
    ensures ComputeRfm(rows, today, quantiles) == Err(DuplicateBinEdges(RecencyColumn))
  {
    assert KeyOf(rows[0]) in GroupKeys(rows);
    ConstantColumnRefused(Recencies(Aggregates(rows, today)), quantiles);
  }

  /** A table whose rows all belong to one group has no RFM table. */
  lemma OneGroupRefused(rows: seq<Txn>, today: int, quantiles: seq<int> -> Edges)
    requires SpansColumn(quantiles)
    requires |rows| > 0 && forall t :: t in rows ==> KeyOf(t) == KeyOf(rows[0])
    ensures ComputeRfm(rows, today, quantiles) == Err(DuplicateBinEdges(RecencyColumn))
  {
    var ks := GroupKeys(rows);
    DistinctWithin(ks, {KeyOf(rows[0])});
    assert KeyOf(rows[0]) in ks;
    SameRecencyRefused(rows, today, quantiles);
  }

  /** The scores follow the values: a strictly smaller Recency never gets a
      lower R_Score, a smaller Frequency never a higher F_Score (and of two
      equal Frequencies the earlier row never the higher one), a smaller
      Monetary never a higher M_Score. */
  lemma ScoresFollowValues(rows: seq<Txn>, today: int, quantiles: seq<int> -> Edges, i: nat, j: nat)
    requires ComputeRfm(rows, today, quantiles).Ok?
    requires i < |ComputeRfm(rows, today, quantiles).value| && j < |ComputeRfm(rows, today, quantiles).value|
    ensures var t := ComputeRfm(rows, today, quantiles).value;
      && (t[i].recency < t[j].recency ==> t[i].rScore >= t[j].rScore)
      && (t[i].frequency < t[j].frequency ==> t[i].fScore <= t[j].fScore)
      && (t[i].frequency == t[j].frequency && i < j ==> t[i].fScore <= t[j].fScore)
      && (t[i].monetary <= t[j].monetary ==> t[i].mScore <= t[j].mScore)
  {
    var aggs := Aggregates(rows, today);
    var t := ComputeRfm(rows, today, quantiles).value;
    var recency, frequency, monetary := Recencies(aggs), Frequencies(aggs), Monetaries(aggs);
    var ranks := RankFirst(frequency);
    if recency[i] < recency[j] {
      QCutMonotone(recency, quantiles, i, j);
    }
    if RanksBefore(frequency, i, j) {
      RankOrder(frequency, i, j);
      QCutMonotone(ranks, quantiles, i, j);
    }
    if monetary[i] <= monetary[j] {
      QCutMonotone(monetary, quantiles, i, j);
    }
  }

  /** The `rfm` DataFrame of a page, whose columns are assigned one after
      another: the aggregate columns first, then R_Score, F_Score, M_Score,
      RFM_Score and Segment. A column not yet assigned is empty. */
  class RfmFrame {
    var index: seq<Key>
    var recency: seq<int>
    var frequency: seq<int>
    var monetary: seq<int>
    var rScore: seq<Score>
    var fScore: seq<Score>
    var mScore: seq<Score>
    var rfmCode: seq<string>
    var segment: seq<Segment>

    /** The aggregate columns line up with the index. */
    ghost predicate Valid()
      reads this
    {
      |recency| == |index| && |frequency| == |index| && |monetary| == |index|
    }

    function Aggregated(): seq<Aggregate>
      reads this
      requires Valid()
    {
      var index, recency, frequency, monetary := index, recency, frequency, monetary;
      seq(|index|, i requires 0 <= i < |index| => Aggregate(index[i], recency[i], frequency[i], monetary[i]))
    }

    /** `groupby(...).agg(...)` followed by `rfm.columns = [...]`. */
    constructor (rows: seq<Txn>, today: int)
      ensures Valid()
      ensures Aggregated() == Aggregates(rows, today)
      ensures rScore == [] && fScore == [] && mScore == [] && rfmCode == [] && segment == []
    {
      var aggs := Aggregates(rows, today);
      index := seq(|aggs|, i requires 0 <= i < |aggs| => aggs[i].key);
      recency := Recencies(aggs);
      frequency := Frequencies(aggs);
      monetary := Monetaries(aggs);
      rScore, fScore, mScore, rfmCode, segment := [], [], [], [], [];
    }

    /** `rfm['R_Score'] = pd.qcut(rfm['Recency'], 5, labels=[5, 4, 3, 2, 1])`. */
    method AssignRScore(quantiles: seq<int> -> Edges) returns (ok: bool)
      requires Valid()
      modifies this
      ensures Valid()
      ensures index == old(index) && recency == old(recency) && frequency == old(frequency) && monetary == old(monetary)
      ensures fScore == old(fScore) && mScore == old(mScore) && rfmCode == old(rfmCode) && segment == old(segment)
      ensures ok <==> QCut(recency, quantiles).Some?
      ensures ok ==> |rScore| == |index| && forall i :: 0 <= i < |index| ==> rScore[i] == ReverseLabel(QCut(recency, quantiles).value[i])
      ensures !ok ==> rScore == old(rScore)
    {
      var bins := QCut(recency, quantiles);
      if bins.None? {
        return false;
      }
      rScore := seq(|bins.value|, i requires 0 <= i < |bins.value| => ReverseLabel(bins.value[i]));
      ok := true;
    }

    /** `rfm['F_Score'] = pd.qcut(rfm['Frequency'].rank(method="first"), 5, labels=[1, 2, 3, 4, 5])`. */
    method AssignFScore(quantiles: seq<int> -> Edges) returns (ok: bool)
      requires Valid()
      modifies this
      ensures Valid()
      ensures index == old(index) && recency == old(recency) && frequency == old(frequency) && monetary == old(monetary)
      ensures rScore == old(rScore) && mScore == old(mScore) && rfmCode == old(rfmCode) && segment == old(segment)
      ensures ok <==> QCut(RankFirst(frequency), quantiles).Some?
      ensures ok ==> fScore == QCut(RankFirst(frequency), quantiles).value
      ensures !ok ==> fScore == old(fScore)
    {
      var bins := QCut(RankFirst(frequency), quantiles);
      if bins.None? {
        return false;
      }
      fScore := bins.value;
      ok := true;
    }

    /** `rfm['M_Score'] = pd.qcut(rfm['Monetary'], 5, labels=[1, 2, 3, 4, 5])`. */
    method AssignMScore(quantiles: seq<int> -> Edges) returns (ok: bool)
      requires Valid()
      modifies this
      ensures Valid()
      ensures index == old(index) && recency == old(recency) && frequency == old(frequency) && monetary == old(monetary)
      ensures rScore == old(rScore) && fScore == old(fScore) && rfmCode == old(rfmCode) && segment == old(segment)
      ensures ok <==> QCut(monetary, quantiles).Some?
      ensures ok ==> mScore == QCut(monetary, quantiles).value
      ensures !ok ==> mScore == old(mScore)
    {
      var bins := QCut(monetary, quantiles);
      if bins.None? {
        return false;
      }
      mScore := bins.value;
      ok := true;
    }

    /** `rfm['RFM_Score'] = ...astype(str) + ...`: every code is the row's
        three scores, R first. */
    method AssignCode()
      requires Valid() && |rScore| == |index| && |fScore| == |index| && |mScore| == |index|
      modifies this
      ensures Valid()
      ensures index == old(index) && recency == old(recency) && frequency == old(frequency) && monetary == old(monetary)
      ensures rScore == old(rScore) && fScore == old(fScore) && mScore == old(mScore) && segment == old(segment)
      ensures |rfmCode| == |index|
      ensures forall i :: 0 <= i < |index| ==> ParseCode(rfmCode[i]) == Some((rScore[i], fScore[i], mScore[i]))
      ensures forall i :: 0 <= i < |index| ==> rfmCode[i] == RfmCode(rScore[i], fScore[i], mScore[i])
    {
      var n, r, f, m := |index|, rScore, fScore, mScore;
      rfmCode := seq(n, i requires 0 <= i < n => RfmCode(r[i], f[i], m[i]));
    }

    /** `rfm['Segment'] = rfm.apply(segment, axis=1)`. */
    method AssignSegment()
      requires Valid() && |rScore| == |index| && |fScore| == |index| && |mScore| == |index|
      modifies this
      ensures Valid()
      ensures index == old(index) && recency == old(recency) && frequency == old(frequency) && monetary == old(monetary)
      ensures rScore == old(rScore) && fScore == old(fScore) && mScore == old(mScore) && rfmCode == old(rfmCode)
      ensures |segment| == |index|
      ensures forall i :: 0 <= i < |index| ==> segment[i] == Classify(rScore[i], fScore[i], mScore[i]) && segment[i] != LostCustomers
    {
      var n, r, f, m := |index|, rScore, fScore, mScore;
      segment := seq(n, i requires 0 <= i < n => Classify(r[i], f[i], m[i]));
    }

    /** `rfm.reset_index()`: the finished table as records. */
    function Records(): seq<RfmRecord>
      reads this
      requires Valid() && |rScore| == |index| && |fScore| == |index| && |mScore| == |index|
      requires |rfmCode| == |index| && |segment| == |index|
    {
      var index, recency, frequency, monetary := index, recency, frequency, monetary;
      var rScore, fScore, mScore, rfmCode, segment := rScore, fScore, mScore, rfmCode, segment;
      seq(|index|, i requires 0 <= i < |index| =>
        RfmRecord(index[i], recency[i], frequency[i], monetary[i], rScore[i], fScore[i], mScore[i], rfmCode[i], segment[i]))
    }
  }

  /** The RFM steps of a page, run on the `rfm` frame column by column; it
      computes exactly the table `ComputeRfm` describes. */
  method RunRfm(rows: seq<Txn>, today: int, quantiles: seq<int> -> Edges) returns (out: Result<seq<RfmRecord>, RfmError>)
    ensures out == ComputeRfm(rows, today, quantiles)
  {
    var aggs := Aggregates(rows, today);
    var rfm := new RfmFrame(rows, today);
    assert rfm.recency == Recencies(aggs) && rfm.frequency == Frequencies(aggs) && rfm.monetary == Monetaries(aggs) by {
      assert rfm.Aggregated() == aggs;
    }
    var ok := rfm.AssignRScore(quantiles);
    if !ok {
      return Err(DuplicateBinEdges(RecencyColumn));
    }
    ok := rfm.AssignFScore(quantiles);
    if !ok {
      return Err(DuplicateBinEdges(FrequencyColumn));
    }
    ok := rfm.AssignMScore(quantiles);
    if !ok {
      return Err(DuplicateBinEdges(MonetaryColumn));
    }
    rfm.AssignCode();
    rfm.AssignSegment();
    out := Ok(rfm.Records());
    assert rfm.Aggregated() == aggs;
    assert rfm.rScore == Reversed(QCut(Recencies(aggs), quantiles).value);
    assert rfm.Records() == Assemble(aggs, rfm.rScore, rfm.fScore, rfm.mScore) by {
      forall i | 0 <= i < |aggs|
        ensures rfm.Records()[i] == Scored(aggs[i], rfm.rScore[i], rfm.fScore[i], rfm.mScore[i])
      {
        assert rfm.Aggregated()[i] == aggs[i];
      }
    }
  }
}
