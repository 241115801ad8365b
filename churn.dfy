/** The product churn page: the transactions of one product, their
    acquisition cohorts and the retention matrix, each customer's last
    purchase with its churn flag, the churned customers' transactions and
    the churn rate by month of last purchase. */
module Churn {

  import opened Tables

  /** Why the page shows no analysis: the product has no transactions. */
  datatype ChurnError = NoDataForProduct(item: string)

  /** The product choices, `sorted(df['StockName'].unique())`. */
  function ItemOptions(df: seq<Txn>): (opts: seq<string>)
    ensures forall p :: p in opts <==> exists t :: t in df && t.product == p
    ensures Distinct(opts) && SortedBy(opts, StrLess)
  {
    StrLessIsAsymmetric();
    SortBy(DistinctBy(df, (t: Txn) => t.product), StrLess)
  }

  /** `df[df['StockName'] == item_name]`. */
  function ProductRows(df: seq<Txn>, item: string): (rows: seq<Txn>)
    ensures forall t :: t in rows <==> t in df && t.product == item
  {
    Filter(df, (t: Txn) => t.product == item)
  }

  /** A product offered in the list always has transactions, so the
      no-data warning cannot follow a choice from the list. */
  lemma OfferedItemHasRows(df: seq<Txn>, item: string)
    requires item in ItemOptions(df)
    ensures |ProductRows(df, item)| > 0
  {
    var t :| t in df && t.product == item;
    assert t in ProductRows(df, item);
  }

  /** The customers of some rows. */
  function Customers(rows: seq<Txn>): set<string>
  {
    set t | t in rows :: t.customer
  }

  function OfCustomer(c: string): Txn -> bool
  {
    (t: Txn) => t.customer == c
  }

  /** The transactions of one customer, in table order. */
  function Purchases(rows: seq<Txn>, c: string): (p: seq<Txn>)
    ensures forall t :: t in p <==> t in rows && t.customer == c
    ensures c in Customers(rows) ==> |p| > 0
  {
    var p := Filter(rows, OfCustomer(c));
    assert c in Customers(rows) ==> |p| > 0 by {
      if c in Customers(rows) {
        var t :| t in rows && t.customer == c;
        assert t in p;
      }
    }
    p
  }

  /** `t` is a purchase of `c` with the customer's earliest date. */
  ghost predicate IsFirstPurchase(rows: seq<Txn>, c: string, t: Txn)
  {
    t in Purchases(rows, c) && forall u :: u in Purchases(rows, c) ==> t.date <= u.date
  }

  /** `groupby('CustomerName')['date'].transform('min').dt.to_period('M')`:
      the month of the customer's earliest purchase. */
  function CohortMonth(rows: seq<Txn>, c: string): (m: int)
    requires c in Customers(rows)
    ensures exists t :: IsFirstPurchase(rows, c, t) && t.month == m
  {
    EarliestRow(Purchases(rows, c)).month
  }

  /** A row of `filtered_df` once `CohortMonth`, `OrderMonth` and
      `MonthsSinceFirstPurchase` are added. */
  datatype CohortRow = CohortRow(txn: Txn, cohortMonth: int, orderMonth: int, monthsSinceFirst: int)

  /** The rows of a product with their cohort columns. */
  function CohortTable(rows: seq<Txn>): (table: seq<CohortRow>)
    ensures |table| == |rows|
    ensures forall i :: 0 <= i < |rows| ==>
      && table[i].txn == rows[i]
      && table[i].cohortMonth == CohortMonth(rows, rows[i].customer)
      && table[i].orderMonth == rows[i].month
      && table[i].monthsSinceFirst == table[i].orderMonth - table[i].cohortMonth
  {
    seq(|rows|, i requires 0 <= i < |rows| =>
      var cohort := CohortMonth(rows, rows[i].customer);
      CohortRow(rows[i], cohort, rows[i].month, rows[i].month - cohort))
  }

  /** Every customer has one cohort month: all their rows carry the same
      one. */
  lemma OneCohortPerCustomer(rows: seq<Txn>, i: nat, j: nat)
    requires i < |rows| && j < |rows| && rows[i].customer == rows[j].customer
    ensures CohortTable(rows)[i].cohortMonth == CohortTable(rows)[j].cohortMonth
  {
  }

  /** With dates on a real calendar, no purchase comes before its
      customer's cohort month. */
  lemma OffsetNonNegative(rows: seq<Txn>)
    requires WellDated(rows)
    ensures forall r :: r in CohortTable(rows) ==> r.monthsSinceFirst >= 0
  {
    var table := CohortTable(rows);
    forall i | 0 <= i < |table| ensures table[i].monthsSinceFirst >= 0 {
      var c := rows[i].customer;
      var t :| IsFirstPurchase(rows, c, t) && t.month == CohortMonth(rows, c);
      assert rows[i] in Purchases(rows, c);
      var j :| 0 <= j < |rows| && rows[j] == t;
    }
  }

  type Cell = (int, int)

  /** The distinct customers of one (cohort month, offset) cell. */
  function Active(table: seq<CohortRow>, cell: Cell): set<string>
  {
    set r | r in table && r.cohortMonth == cell.0 && r.monthsSinceFirst == cell.1 :: r.txn.customer
  }

  /** The distinct customers of one cohort. */
  function Members(table: seq<CohortRow>, m: int): set<string>
  {
    set r | r in table && r.cohortMonth == m :: r.txn.customer
  }

  function Cells(table: seq<CohortRow>): set<Cell>
  {
    set r | r in table :: (r.cohortMonth, r.monthsSinceFirst)
  }

  /** `cohort_data` pivoted: the number of distinct customers of each cell;
      a cell without customers has no entry (NaN in the pivot), not zero. */
  function CohortCounts(table: seq<CohortRow>): (counts: map<Cell, nat>)
    ensures forall cell :: cell in counts <==> Active(table, cell) != {}
    ensures forall cell :: cell in counts ==> counts[cell] == |Active(table, cell)| && counts[cell] >= 1
  {
    var counts := map cell | cell in Cells(table) :: |Active(table, cell)|;
    assert forall cell :: cell in counts <==> Active(table, cell) != {} by {
      forall cell ensures cell in counts <==> Active(table, cell) != {} {
        if cell in Cells(table) {
          var r :| r in table && (r.cohortMonth, r.monthsSinceFirst) == cell;
          assert r.txn.customer in Active(table, cell);
        }
        if Active(table, cell) != {} {
          var c :| c in Active(table, cell);
          var r :| r in table && r.cohortMonth == cell.0 && r.monthsSinceFirst == cell.1 && r.txn.customer == c;
          assert (r.cohortMonth, r.monthsSinceFirst) in Cells(table);
        }
      }
    }
    counts
  }

  lemma {:induction false} SubsetSize<T>(a: set<T>, b: set<T>)
    requires a <= b
    ensures |a| <= |b|
    decreases b
  {
    if a != {} {
      var x :| x in a;
      SubsetSize(a - {x}, b - {x});
    }
  }

  /** Each customer's earliest purchase is a row at offset 0 of their
      cohort. */
  lemma FirstPurchaseRow(rows: seq<Txn>, c: string) returns (j: nat)
    requires c in Customers(rows)
    ensures j < |rows| && rows[j].customer == c
    ensures CohortTable(rows)[j].cohortMonth == CohortMonth(rows, c)
    ensures CohortTable(rows)[j].monthsSinceFirst == 0
  {
    var m := CohortMonth(rows, c);
    var t :| IsFirstPurchase(rows, c, t) && t.month == m;
    assert t in rows && t.customer == c;
    j :| 0 <= j < |rows| && rows[j] == t;
  }

  /** The offset-0 cell of a cohort holds every customer of the cohort: a
      customer's earliest purchase falls in their cohort month. */
  lemma CohortBaseIsCohortSize(rows: seq<Txn>, m: int)
    ensures var table := CohortTable(rows);
      Active(table, (m, 0)) == Members(table, m)
  {
    var table := CohortTable(rows);
    forall c | c in Members(table, m) ensures c in Active(table, (m, 0)) {
      MemberActiveAtStart(rows, m, c);
    }
  }

  lemma MemberActiveAtStart(rows: seq<Txn>, m: int, c: string)
    requires c in Members(CohortTable(rows), m)
    ensures c in Active(CohortTable(rows), (m, 0))
  {
    var table := CohortTable(rows);
    var r :| r in table && r.cohortMonth == m && r.txn.customer == c;
    var i :| 0 <= i < |table| && table[i] == r;
    assert rows[i] in rows;
    var j := FirstPurchaseRow(rows, c);
    assert table[j] in table;
  }

  /** No cell counts more customers than its cohort's offset-0 cell, and
      every cohort with a cell has that base cell. */
  lemma CellAtMostBase(rows: seq<Txn>, cell: Cell)
    requires cell in CohortCounts(CohortTable(rows))
    ensures var counts := CohortCounts(CohortTable(rows));
      (cell.0, 0) in counts && counts[cell] <= counts[(cell.0, 0)]
  {
    var table := CohortTable(rows);
    CohortBaseIsCohortSize(rows, cell.0);
    assert Active(table, cell) <= Members(table, cell.0);
    SubsetSize(Active(table, cell), Members(table, cell.0));
  }

  /** The smallest offset of the table: the pivot's first column, which
      `iloc[:, 0]` divides by. */
  function FirstOffset(table: seq<CohortRow>): (k: int)
    requires |table| > 0
    ensures exists r :: r in table && r.monthsSinceFirst == k
    ensures forall r :: r in table ==> k <= r.monthsSinceFirst
  {
    if |table| == 1 then table[0].monthsSinceFirst
    else
      assert table == [table[0]] + table[1..];
      var rest := FirstOffset(table[1..]);
      if table[0].monthsSinceFirst <= rest then table[0].monthsSinceFirst else rest
  }

  /** With dates on a real calendar the pivot's first column is offset 0. */
  lemma FirstOffsetIsZero(rows: seq<Txn>)
    requires |rows| > 0 && WellDated(rows)
    ensures FirstOffset(CohortTable(rows)) == 0
  {
    var table := CohortTable(rows);
    OffsetNonNegative(rows);
    assert rows[0] in rows;
    var j := FirstPurchaseRow(rows, rows[0].customer);
    assert table[j] in table;
  }

  /** `part / whole * 100`. */
  function Share(part: nat, whole: nat): real
    requires 0 < whole
  {
    100.0 * (part as real / whole as real)
  }

  /** A share of a whole in percent. */
  function Percent(part: nat, whole: nat): (p: real)
    requires 0 < whole && part <= whole
    ensures 0.0 <= p <= 100.0
    ensures part == whole ==> p == 100.0
  {
    ShareBounds(part, whole);
    Share(part, whole)
  }

  lemma ShareBounds(part: nat, whole: nat)
    requires 0 < whole && part <= whole
    ensures 0.0 <= Share(part, whole) <= 100.0
    ensures part == whole ==> Share(part, whole) == 100.0
  {
    var x, w := part as real, whole as real;
    var q := x / w;
    assert q * w == x;
    assert q <= 1.0 by {
      assert (1.0 - q) * w == w - x;
    }
    if part == whole {
      assert q == 1.0;
    }
  }

  /** `cohort_pivot.divide(cohort_pivot.iloc[:, 0], axis=0) * 100`: each cell
      as a percentage of its cohort's first-column cell; a cell whose row
      has no first-column entry divides by NaN and has no value. */
  function Retention(table: seq<CohortRow>): (ret: map<Cell, real>)
    requires |table| > 0
    ensures forall cell :: cell in ret <==>
      cell in CohortCounts(table) && (cell.0, FirstOffset(table)) in CohortCounts(table)
  {
    var counts, first := CohortCounts(table), FirstOffset(table);
    map cell | cell in counts && (cell.0, first) in counts ::
      100.0 * (counts[cell] as real / counts[(cell.0, first)] as real)
  }

  /** With dates on a real calendar every cell of the retention matrix has
      a value, its cohort's offset-0 cell reads 100 and every value lies
      between 0 and 100. */
  lemma RetentionBounds(rows: seq<Txn>)
    requires |rows| > 0 && WellDated(rows)
    ensures var table := CohortTable(rows);
      var ret := Retention(table);
      && (forall cell :: cell in ret <==> cell in CohortCounts(table))
      && (forall cell :: cell in ret && cell.1 == 0 ==> ret[cell] == 100.0)
      && (forall cell :: cell in ret ==> 0.0 <= ret[cell] <= 100.0)
  {
    var table := CohortTable(rows);
    var counts, ret := CohortCounts(table), Retention(table);
    FirstOffsetIsZero(rows);
    forall cell | cell in counts ensures cell in ret {
      CellAtMostBase(rows, cell);
    }
    forall cell | cell in ret ensures 0.0 <= ret[cell] <= 100.0 && (cell.1 == 0 ==> ret[cell] == 100.0) {
      RetentionCell(rows, cell);
    }
  }

  /** One cell of the retention matrix is its count as a share of the
      cohort's offset-0 count. */
  lemma RetentionCell(rows: seq<Txn>, cell: Cell)
    requires |rows| > 0 && WellDated(rows)
    requires cell in Retention(CohortTable(rows))
    ensures var ret := Retention(CohortTable(rows));
      0.0 <= ret[cell] <= 100.0 && (cell.1 == 0 ==> ret[cell] == 100.0)
  {
    var table := CohortTable(rows);
    var counts := CohortCounts(table);
    FirstOffsetIsZero(rows);
    CellAtMostBase(rows, cell);
    ShareBounds(counts[cell], counts[(cell.0, 0)]);
  }

  /** A larger share gives a larger percentage. */
  lemma PercentMonotone(smaller: nat, larger: nat, whole: nat)
    requires 0 < whole && smaller <= larger <= whole
    ensures Percent(smaller, whole) <= Percent(larger, whole)
  {
    var w := whole as real;
    var gap := 100.0 * ((larger - smaller) as real / w);
    assert gap >= 0.0;
    assert Percent(larger, whole) == Percent(smaller, whole) + gap;
  }

  /** A row of `groupby('CustomerName')['date'].max().reset_index()`: the
      customer, the date of their last purchase and that date's month. */
  datatype LastPurchase = LastPurchase(customer: string, date: int, month: int)

  /** The last purchase of one customer. */
  function LastPurchaseOf(rows: seq<Txn>, c: string): (x: LastPurchase)
    requires c in Customers(rows)
    ensures x.customer == c
    ensures exists t :: t in Purchases(rows, c) && t.date == x.date && t.month == x.month
    ensures forall t :: t in Purchases(rows, c) ==> t.date <= x.date
  {
    var e := LatestRow(Purchases(rows, c));
    LastPurchase(c, e.date, e.month)
  }

  /** The customers in the order `groupby('CustomerName')` lists them:
      each customer once, in Python's string order. */
  function CustomerOrder(rows: seq<Txn>): (cs: seq<string>)
    ensures Distinct(cs) && SortedBy(cs, StrLess)
    ensures forall c :: c in cs <==> c in Customers(rows)
  {
    StrLessIsAsymmetric();
    var cs := SortBy(DistinctBy(rows, (t: Txn) => t.customer), StrLess);
    assert forall c :: c in cs <==> c in Customers(rows) by {
      forall c | c in cs ensures c in Customers(rows) {
        var t :| t in rows && t.customer == c;
      }
    }
    cs
  }

  /** `last_purchase`: one row per customer, in `groupby` order, each with
      the customer's latest purchase. */
  function LastPurchases(rows: seq<Txn>): (lp: seq<LastPurchase>)
    ensures |lp| == |CustomerOrder(rows)|
    ensures forall i :: 0 <= i < |lp| ==> lp[i].customer == CustomerOrder(rows)[i]
    ensures forall i :: 0 <= i < |lp| ==> lp[i] == LastPurchaseOf(rows, lp[i].customer)
  {
    var cs := CustomerOrder(rows);
    seq(|cs|, i requires 0 <= i < |cs| => LastPurchaseOf(rows, cs[i]))
  }

  /** A row of `last_purchase` once `MonthsSinceLastPurchase` and `Churned`
      are added. */
  datatype LastPurchaseRow = LastPurchaseRow(
    customer: string,
    date: int,
    month: int,
    monthsSinceLast: int,
    churned: bool)

  /** Whole 30-day months from `date` to `latest`, `days // 30`. Python's
      floor division and Dafny's `/` agree for the positive divisor 30. */
  function MonthsSince(latest: int, date: int): (n: int)
    ensures 30 * n <= latest - date < 30 * (n + 1)
    ensures date <= latest ==> n >= 0
  {
    (latest - date) / 30
  }

  /** `MonthsSinceLastPurchase` and `Churned` for one row of
      `last_purchase`. */
  function Flag(x: LastPurchase, latest: int, threshold: int): (row: LastPurchaseRow)
    ensures row.customer == x.customer && row.date == x.date && row.month == x.month
    ensures 30 * row.monthsSinceLast <= latest - x.date < 30 * (row.monthsSinceLast + 1)
    ensures row.churned <==> row.monthsSinceLast > threshold
  {
    var months := MonthsSince(latest, x.date);
    LastPurchaseRow(x.customer, x.date, x.month, months, months > threshold)
  }

  /** The date every Recency of the churn page is measured from. */
  function LatestDate(rows: seq<Txn>): (d: int)
    requires |rows| > 0
    ensures forall t :: t in rows ==> t.date <= d
    ensures exists t :: t in rows && t.date == d
  {
    LatestRow(rows).date
  }

  /** `last_purchase` with its two added columns. */
  function LastPurchaseTable(rows: seq<Txn>, threshold: int): (table: seq<LastPurchaseRow>)
    requires |rows| > 0
    ensures 0 < |table| == |LastPurchases(rows)| == |CustomerOrder(rows)|
    ensures forall i :: 0 <= i < |table| ==>
      && table[i].customer == CustomerOrder(rows)[i]
      && table[i].date == LastPurchaseOf(rows, CustomerOrder(rows)[i]).date
      && table[i].month == LastPurchaseOf(rows, CustomerOrder(rows)[i]).month
  {
    var lp, latest := LastPurchases(rows), LatestDate(rows);
    assert rows[0].customer in CustomerOrder(rows) by {
      assert rows[0] in rows;
    }
    seq(|lp|, i requires 0 <= i < |lp| => Flag(lp[i], latest, threshold))
  }

  /** Every customer's months since last purchase is a whole number of
      30-day months no smaller than zero, and they are churned exactly when
      it exceeds the threshold (so with threshold 3, three months is not
      churned). */
  lemma LastPurchaseTableFacts(rows: seq<Txn>, threshold: int)
    requires |rows| > 0
    ensures var table, latest := LastPurchaseTable(rows, threshold), LatestDate(rows);
      forall x :: x in table ==>
        && x.monthsSinceLast >= 0
        && 30 * x.monthsSinceLast <= latest - x.date < 30 * (x.monthsSinceLast + 1)
        && (x.churned <==> x.monthsSinceLast > threshold)
  {
    var lp, latest, table := LastPurchases(rows), LatestDate(rows), LastPurchaseTable(rows, threshold);
    forall i | 0 <= i < |table| ensures table[i].monthsSinceLast >= 0 {
      var t :| t in Purchases(rows, lp[i].customer) && t.date == lp[i].date && t.month == lp[i].month;
    }
  }

  /** Lowering the threshold only adds churned customers. */
  lemma LowerThresholdChurnsMore(rows: seq<Txn>, lower: int, higher: int, i: nat)
    requires |rows| > 0 && lower <= higher
    requires i < |LastPurchaseTable(rows, higher)|
    ensures LastPurchaseTable(rows, higher)[i].churned ==> LastPurchaseTable(rows, lower)[i].churned
    ensures LastPurchaseTable(rows, higher)[i].customer == LastPurchaseTable(rows, lower)[i].customer
    ensures LastPurchaseTable(rows, higher)[i].month == LastPurchaseTable(rows, lower)[i].month
  {
  }

  function InMonth(m: int): LastPurchaseRow -> bool
  {
    (x: LastPurchaseRow) => x.month == m
  }

  function ChurnedInMonth(m: int): LastPurchaseRow -> bool
  {
    (x: LastPurchaseRow) => x.month == m && x.churned
  }

  function IsChurned(x: LastPurchaseRow): bool
  {
    x.churned
  }

  /** The months of last purchase. */
  function Months(table: seq<LastPurchaseRow>): set<int>
  {
    set x | x in table :: x.month
  }

  /** The churn rate of one month: the share of the customers whose last
      purchase fell in it who are churned, in percent. */
  function MonthRate(table: seq<LastPurchaseRow>, m: int): (rate: real)
    requires m in Months(table)
    ensures 0.0 <= rate <= 100.0
  {
    ChurnRateParts(table, m);
    Percent(|Filter(table, ChurnedInMonth(m))|, |Filter(table, InMonth(m))|)
  }

  /** `last_purchase.groupby(month of date)['Churned'].mean() * 100`: a rate
      for every month somebody made their last purchase in, and for no other
      month. */
  function MonthlyChurn(table: seq<LastPurchaseRow>): (rates: map<int, real>)
    ensures forall m :: m in rates <==> m in Months(table)
    ensures forall m :: m in rates ==> 0.0 <= rates[m] <= 100.0
  {
    map m | m in Months(table) :: MonthRate(table, m)
  }

  /** A month of last purchase has customers, and no more churned ones than
      customers. */
  lemma ChurnRateParts(table: seq<LastPurchaseRow>, m: int)
    requires m in Months(table)
    ensures 0 < |Filter(table, InMonth(m))|
    ensures |Filter(table, ChurnedInMonth(m))| <= |Filter(table, InMonth(m))|
  {
    var x :| x in table && x.month == m;
    assert x in Filter(table, InMonth(m));
    FilterMonotone(table, ChurnedInMonth(m), InMonth(m));
  }

  /** The threshold changes no month of last purchase. */
  lemma SameMonths(rows: seq<Txn>, lower: int, higher: int)
    requires |rows| > 0
    ensures Months(LastPurchaseTable(rows, higher)) == Months(LastPurchaseTable(rows, lower))
  {
    var lo, hi := LastPurchaseTable(rows, lower), LastPurchaseTable(rows, higher);
    forall k | k in Months(hi) ensures k in Months(lo) {
      var i :| 0 <= i < |hi| && hi[i].month == k;
      assert lo[i] in lo;
    }
    forall k | k in Months(lo) ensures k in Months(hi) {
      var i :| 0 <= i < |lo| && lo[i].month == k;
      assert hi[i] in hi;
    }
  }

  /** Of two tables that agree on every customer's month, the one that
      churns at least the customers the other churns counts as many
      customers in each month and at least as many churned ones. */
  lemma MoreChurnedCounts(hi: seq<LastPurchaseRow>, lo: seq<LastPurchaseRow>, m: int)
    requires |hi| == |lo|
    requires forall i :: 0 <= i < |hi| ==> hi[i].month == lo[i].month && (hi[i].churned ==> lo[i].churned)
    ensures |Filter(hi, ChurnedInMonth(m))| <= |Filter(lo, ChurnedInMonth(m))|
    ensures |Filter(hi, InMonth(m))| == |Filter(lo, InMonth(m))|
  {
    FilterPointwise(hi, lo, ChurnedInMonth(m), ChurnedInMonth(m));
    FilterPointwise(hi, lo, InMonth(m), InMonth(m));
    FilterPointwise(lo, hi, InMonth(m), InMonth(m));
  }

  /** ... and so has every month's rate at least as high. */
  lemma MoreChurnedHigherRate(hi: seq<LastPurchaseRow>, lo: seq<LastPurchaseRow>, m: int)
    requires |hi| == |lo|
    requires forall i :: 0 <= i < |hi| ==> hi[i].month == lo[i].month && (hi[i].churned ==> lo[i].churned)
    requires m in Months(hi)
    ensures m in Months(lo)
    ensures MonthRate(hi, m) <= MonthRate(lo, m)
  {
    var x :| x in hi && x.month == m;
    var i :| 0 <= i < |hi| && hi[i] == x;
    assert lo[i] in lo;
    MoreChurnedCounts(hi, lo, m);
    ChurnRateParts(hi, m);
    ChurnRateParts(lo, m);
    PercentMonotone(|Filter(hi, ChurnedInMonth(m))|, |Filter(lo, ChurnedInMonth(m))|, |Filter(lo, InMonth(m))|);
  }

  /** Lowering the threshold never lowers a month's churn rate. */
  lemma LowerThresholdRaisesRates(rows: seq<Txn>, lower: int, higher: int, m: int)
    requires |rows| > 0 && lower <= higher
    requires m in Months(LastPurchaseTable(rows, higher))
    ensures m in MonthlyChurn(LastPurchaseTable(rows, lower))
    ensures MonthlyChurn(LastPurchaseTable(rows, higher))[m] <= MonthlyChurn(LastPurchaseTable(rows, lower))[m]
  {
    var lo, hi := LastPurchaseTable(rows, lower), LastPurchaseTable(rows, higher);
    forall i | 0 <= i < |hi| ensures hi[i].month == lo[i].month && (hi[i].churned ==> lo[i].churned) {
      LowerThresholdChurnsMore(rows, lower, higher, i);
    }
    MoreChurnedHigherRate(hi, lo, m);
  }

  function OfCustomerRow(c: string): CohortRow -> bool
  {
    (r: CohortRow) => r.txn.customer == c
  }

  /** The rows `x` meets in a left merge on `CustomerName`: `x` beside each
      row of `frame` with its customer, in `frame` order. */
  function MatchesOf(x: LastPurchaseRow, frame: seq<CohortRow>): (ps: seq<(LastPurchaseRow, CohortRow)>)
    ensures forall p :: p in ps <==> p.0 == x && p.1 in frame && p.1.txn.customer == x.customer
    ensures |ps| == |Filter(frame, OfCustomerRow(x.customer))|
  {
    var rs := Filter(frame, OfCustomerRow(x.customer));
    var ps := seq(|rs|, i requires 0 <= i < |rs| => (x, rs[i]));
    assert forall i :: 0 <= i < |ps| ==> ps[i].0 == x && ps[i].1 in rs;
    assert forall r :: r in rs ==> (x, r) in ps by {
      forall r | r in rs ensures (x, r) in ps {
        var i :| 0 <= i < |rs| && rs[i] == r;
        assert ps[i] == (x, r);
      }
    }
    ps
  }

  /** `left.merge(frame, on='CustomerName', how='left')` for a left table
      whose every customer has rows in `frame`: the rows each left row
      meets, left row by left row. */
  function MergeLeft(left: seq<LastPurchaseRow>, frame: seq<CohortRow>): (ps: seq<(LastPurchaseRow, CohortRow)>)
    ensures forall p :: p in ps <==> p.0 in left && p.1 in frame && p.1.txn.customer == p.0.customer
  {
    if left == [] then []
    else
      assert left == [left[0]] + left[1..];
      MatchesOf(left[0], frame) + MergeLeft(left[1..], frame)
  }

  /** The customers of some cohort rows. */
  function FrameCustomers(frame: seq<CohortRow>): set<string>
  {
    set r | r in frame :: r.txn.customer
  }

  /** No customer has two rows. */
  ghost predicate DistinctCustomers(table: seq<LastPurchaseRow>)
  {
    forall i, j :: 0 <= i < j < |table| ==> table[i].customer != table[j].customer
  }

  function CustomerSet(table: seq<LastPurchaseRow>): set<string>
  {
    set x | x in table :: x.customer
  }

  /** The customers flagged as churned. */
  function ChurnedSet(table: seq<LastPurchaseRow>): set<string>
  {
    set x | x in table && x.churned :: x.customer
  }

  function InCustomers(cs: set<string>): CohortRow -> bool
  {
    (r: CohortRow) => r.txn.customer in cs
  }

  function OfCustomers(cs: set<string>): Txn -> bool
  {
    (t: Txn) => t.customer in cs
  }

  /** Dropping the first row of a table with one row per customer leaves
      such a table, without that row's customer. */
  lemma TailDistinct(table: seq<LastPurchaseRow>)
    requires DistinctCustomers(table) && |table| > 0
    ensures DistinctCustomers(table[1..])
    ensures table[0].customer !in CustomerSet(table[1..])
    ensures table[0].customer !in ChurnedSet(table[1..])
  {
    var rest := table[1..];
    forall i, j | 0 <= i < j < |rest| ensures rest[i].customer != rest[j].customer {
      assert rest[i] == table[i + 1] && rest[j] == table[j + 1];
    }
    forall i | 0 <= i < |rest| ensures rest[i].customer != table[0].customer {
      assert rest[i] == table[i + 1];
    }
  }

  /** When no customer has two left rows, the merge has exactly one row per
      row of `frame` whose customer is on the left. */
  lemma {:induction false} MergeCount(left: seq<LastPurchaseRow>, frame: seq<CohortRow>)
    requires DistinctCustomers(left)
    ensures |MergeLeft(left, frame)| == |Filter(frame, InCustomers(CustomerSet(left)))|
  {
    if left == [] {
      FilterNone(frame, InCustomers(CustomerSet(left)));
    } else {
      var c, rest := left[0].customer, left[1..];
      TailDistinct(left);
      MergeCount(rest, frame);
      assert left == [left[0]] + rest;
      assert CustomerSet(left) == {c} + CustomerSet(rest);
      FilterSplit(frame, OfCustomerRow(c), InCustomers(CustomerSet(rest)), InCustomers(CustomerSet(left)));
    }
  }

  /** Keeping the churned rows keeps the customers distinct. */
  lemma {:induction false} ChurnedRowsDistinct(table: seq<LastPurchaseRow>)
    requires DistinctCustomers(table)
    ensures DistinctCustomers(Filter(table, IsChurned))
  {
    if table != [] {
      var rest := table[1..];
      TailDistinct(table);
      ChurnedRowsDistinct(rest);
      var kept := Filter(rest, IsChurned);
      if table[0].churned {
        var all := [table[0]] + kept;
        assert Filter(table, IsChurned) == all;
        forall i, j | 0 <= i < j < |all| ensures all[i].customer != all[j].customer {
          if i > 0 {
            assert all[i] == kept[i - 1] && all[j] == kept[j - 1];
          } else {
            assert all[j] in rest;
            var k :| 0 <= k < |rest| && rest[k] == all[j];
            assert table[k + 1] == all[j];
          }
        }
      }
    }
  }

  /** A left row whose customer has rows in `frame` meets at least one of
      them, so the merge has at least as many rows as its left table. */
  lemma {:induction false} MergeAtLeastLeft(left: seq<LastPurchaseRow>, frame: seq<CohortRow>)
    requires forall x :: x in left ==> x.customer in FrameCustomers(frame)
    ensures |MergeLeft(left, frame)| >= |left|
  {
    if left != [] {
      var x := left[0];
      var r :| r in frame && r.txn.customer == x.customer;
      assert (x, r) in MatchesOf(x, frame);
      assert forall y :: y in left[1..] ==> y in left;
      MergeAtLeastLeft(left[1..], frame);
    }
  }

  /** `churned_customers`: the churned rows of `last_purchase` merged with
      the product's cohort rows. */
  function ChurnedCustomers(table: seq<LastPurchaseRow>, frame: seq<CohortRow>): (ps: seq<(LastPurchaseRow, CohortRow)>)
    ensures forall p :: p in ps <==> p.0 in table && p.0.churned && p.1 in frame && p.1.txn.customer == p.0.customer
  {
    MergeLeft(Filter(table, IsChurned), frame)
  }

  /** The "Churned Customers" figure as the page computes it: the number of
      rows of `churned_customers`, and that number as a percentage of the
      customers. When no customer has two rows in `table`, the number is
      the count of rows of `frame` belonging to churned customers: each
      churned customer counts once per transaction. */
  function ChurnedMetricAsWritten(table: seq<LastPurchaseRow>, frame: seq<CohortRow>): (metric: (nat, real))
    requires |table| > 0
    ensures DistinctCustomers(table) ==> metric.0 == |Filter(frame, InCustomers(ChurnedSet(table)))|
    ensures metric.1 == Share(metric.0, |table|)
  {
    ShownCount(table, frame);
    var n := |ChurnedCustomers(table, frame)|;
    (n, Share(n, |table|))
  }

  /** `len(churned_customers)` counts the transactions of churned customers. */
  lemma ShownCount(table: seq<LastPurchaseRow>, frame: seq<CohortRow>)
    ensures DistinctCustomers(table) ==>
      |ChurnedCustomers(table, frame)| == |Filter(frame, InCustomers(ChurnedSet(table)))|
  {
    if DistinctCustomers(table) {
      ChurnedRowsDistinct(table);
      assert CustomerSet(Filter(table, IsChurned)) == ChurnedSet(table);
      MergeCount(Filter(table, IsChurned), frame);
    }
  }

  /** The number of churned customers, each counted once. */
  function ChurnedCustomerCount(table: seq<LastPurchaseRow>): (n: nat)
    ensures n <= |table|
  {
    |Filter(table, IsChurned)|
  }

  /** In a table with one row per customer, the churned count is the
      number of distinct churned customers. */
  lemma {:induction false} ChurnedCountIsDistinct(table: seq<LastPurchaseRow>)
    requires DistinctCustomers(table)
    ensures ChurnedCustomerCount(table) == |ChurnedSet(table)|
  {
    if table != [] {
      var rest := table[1..];
      TailDistinct(table);
      ChurnedCountIsDistinct(rest);
      var here, there := ChurnedSet(table), ChurnedSet(rest);
      assert table == [table[0]] + rest;
      if table[0].churned {
        assert here == {table[0].customer} + there;
      } else {
        assert here == there;
      }
    }
  }

  /** Every customer of the last-purchase table has rows in the cohort
      table, so the page's figure never counts fewer rows than churned
      customers. */
  lemma MetricNeverUndercounts(rows: seq<Txn>, threshold: int)
    requires |rows| > 0
    ensures var table := LastPurchaseTable(rows, threshold);
      |ChurnedCustomers(table, CohortTable(rows))| >= ChurnedCustomerCount(table)
  {
    var table, frame := LastPurchaseTable(rows, threshold), CohortTable(rows);
    var churned := Filter(table, IsChurned);
    forall x | x in churned ensures x.customer in FrameCustomers(frame) {
      var i :| 0 <= i < |table| && table[i] == x;
      CustomerHasCohortRows(rows, threshold, i);
    }
    MergeAtLeastLeft(churned, frame);
  }

  /** Every customer of `last_purchase` has rows in the cohort table. */
  lemma CustomerHasCohortRows(rows: seq<Txn>, threshold: int, i: nat)
    requires |rows| > 0 && i < |LastPurchaseTable(rows, threshold)|
    ensures LastPurchaseTable(rows, threshold)[i].customer in FrameCustomers(CohortTable(rows))
  {
    var c, frame := CustomerOrder(rows)[i], CohortTable(rows);
    assert c in CustomerOrder(rows);
    var t :| t in rows && t.customer == c;
    var j :| 0 <= j < |rows| && rows[j] == t;
    assert frame[j] in frame;
  }

  /** The table the overcount is shown on: customer "A" buys the product on
      days 0, 1 and 2 of month 0, customer "B" on day 200, in month 6. */
  predicate OvercountExample(rows: seq<Txn>)
  {
    rows == [
      Txn(0, 0, "1", "A", "b", "r", "c", "P", 10),
      Txn(1, 0, "2", "A", "b", "r", "c", "P", 10),
      Txn(2, 0, "3", "A", "b", "r", "c", "P", 10),
      Txn(200, 6, "4", "B", "b", "r", "c", "P", 10)]
  }

  lemma TwoCustomerOrder(rows: seq<Txn>)
    requires Customers(rows) == {"A", "B"}
    ensures CustomerOrder(rows) == ["A", "B"]
  {
    var cs := CustomerOrder(rows);
    DistinctWithin(cs, {"A", "B"});
    var a :| 0 <= a < |cs| && cs[a] == "A";
    var b :| 0 <= b < |cs| && cs[b] == "B";
    assert |cs| == 2;
    assert StrLess("A", "B");
    assert cs[0] in cs && cs[1] in cs;
  }

  lemma ExampleCustomers(rows: seq<Txn>)
    requires OvercountExample(rows)
    ensures Customers(rows) == {"A", "B"}
  {
    assert rows[0] in rows && rows[3] in rows;
  }

  lemma ExampleLastPurchaseOfA(rows: seq<Txn>)
    requires OvercountExample(rows)
    ensures "A" in Customers(rows) && LastPurchaseOf(rows, "A") == LastPurchase("A", 2, 0)
  {
    ExampleCustomers(rows);
    assert rows[2] in Purchases(rows, "A");
  }

  lemma ExampleLastPurchaseOfB(rows: seq<Txn>)
    requires OvercountExample(rows)
    ensures "B" in Customers(rows) && LastPurchaseOf(rows, "B") == LastPurchase("B", 200, 6)
  {
    ExampleCustomers(rows);
    assert rows[3] in Purchases(rows, "B");
  }

  lemma ExampleLatestDate(rows: seq<Txn>)
    requires OvercountExample(rows)
    ensures LatestDate(rows) == 200
  {
  }

  /** With threshold 3, "A" (six months since the last purchase) is
      churned and "B" (none) is not. */
  lemma ExampleLastPurchaseTable(rows: seq<Txn>)
    requires OvercountExample(rows)
    ensures LastPurchaseTable(rows, 3) == [LastPurchaseRow("A", 2, 0, 6, true), LastPurchaseRow("B", 200, 6, 0, false)]
  {
    ExampleCustomers(rows);
    TwoCustomerOrder(rows);
    ExampleLastPurchaseOfA(rows);
    ExampleLastPurchaseOfB(rows);
    ExampleLatestDate(rows);
  }

  lemma ExamplePurchasesOfA(rows: seq<Txn>)
    requires OvercountExample(rows)
    ensures |Filter(rows, OfCustomer("A"))| == 3
  {
    assert rows == rows[..3] + rows[3..];
    FilterAppend(rows[..3], rows[3..], OfCustomer("A"));
    FilterKeepsAll(rows[..3], OfCustomer("A"));
    assert Filter(rows[3..], OfCustomer("A")) == [];
  }

  lemma ExampleCohortRowsOfA(rows: seq<Txn>)
    requires OvercountExample(rows)
    ensures |Filter(CohortTable(rows), OfCustomerRow("A"))| == 3
  {
    ExamplePurchasesOfA(rows);
    var frame := CohortTable(rows);
    FilterPointwise(frame, rows, OfCustomerRow("A"), OfCustomer("A"));
    FilterPointwise(rows, frame, OfCustomer("A"), OfCustomerRow("A"));
  }

  lemma ExampleMetrics(table: seq<LastPurchaseRow>, frame: seq<CohortRow>)
    requires table == [LastPurchaseRow("A", 2, 0, 6, true), LastPurchaseRow("B", 200, 6, 0, false)]
    requires |Filter(frame, OfCustomerRow("A"))| == 3
    ensures ChurnedMetricAsWritten(table, frame) == (3, 150.0)
    ensures ChurnedCustomerCount(table) == 1
    ensures Percent(ChurnedCustomerCount(table), |table|) == 50.0
  {
    var churned := Filter(table, IsChurned);
    assert churned == [table[0]] by {
      assert table == [table[0]] + [table[1]];
      FilterAppend([table[0]], [table[1]], IsChurned);
    }
    assert MergeLeft(churned, frame) == MatchesOf(table[0], frame) + MergeLeft([], frame);
  }

  /** On the example the page shows 3 churned customers, 150 percent of
      its 2 customers; one customer of two, 50 percent, is churned. */
  lemma ChurnedMetricOvercounts(rows: seq<Txn>)
    requires OvercountExample(rows)
    ensures var table := LastPurchaseTable(rows, 3);
      && |table| == 2
      && ChurnedMetricAsWritten(table, CohortTable(rows)) == (3, 150.0)
      && ChurnedCustomerCount(table) == 1
      && Percent(ChurnedCustomerCount(table), |table|) == 50.0
  {
    ExampleLastPurchaseTable(rows);
    ExampleCohortRowsOfA(rows);
    ExampleMetrics(LastPurchaseTable(rows, 3), CohortTable(rows));
  }

  /** Everything the page shows for one product. */
  datatype ChurnReport = ChurnReport(
    cohorts: seq<CohortRow>,
    cohortCounts: map<Cell, nat>,
    retention: map<Cell, real>,
    lastPurchase: seq<LastPurchaseRow>,
    churnedCustomers: seq<(LastPurchaseRow, CohortRow)>,
    monthlyChurn: map<int, real>,
    totalCustomers: nat,
    shownChurned: nat,
    shownPercent: real,
    churnedCount: nat,
    churnedPercent: real)

  /** The page for one product and threshold: nothing when the product has
      no rows, otherwise the cohort and churn analysis of its rows. The
      report carries the "Churned Customers" figure as the page shows it
      and, beside it, the churned customers counted once each. */
  function ChurnAnalysis(df: seq<Txn>, item: string, threshold: int): (r: Result<ChurnReport, ChurnError>)
    ensures r.Err? <==> |ProductRows(df, item)| == 0
    ensures r.Err? ==> r.error == NoDataForProduct(item)
  {
    var rows := ProductRows(df, item);
    if |rows| == 0 then Err(NoDataForProduct(item))
    else
      var cohorts := CohortTable(rows);
      var table := LastPurchaseTable(rows, threshold);
      var shown := ChurnedMetricAsWritten(table, cohorts);
      var churned := ChurnedCustomerCount(table);
      Ok(ChurnReport(
        cohorts, CohortCounts(cohorts), Retention(cohorts),
        table, ChurnedCustomers(table, cohorts), MonthlyChurn(table),
        |table|, shown.0, shown.1, churned, Percent(churned, |table|)))
  }

  /** The page itself, on the example with item "P" and threshold 3,
      shows "3 (150.0%)" beside a corrected count of 1 (50 percent). */
  lemma ExamplePage(rows: seq<Txn>)
    requires OvercountExample(rows)
    ensures ChurnAnalysis(rows, "P", 3).Ok?
    ensures var r := ChurnAnalysis(rows, "P", 3).value;
      && r.totalCustomers == 2
      && r.shownChurned == 3 && r.shownPercent == 150.0
      && r.churnedCount == 1 && r.churnedPercent == 50.0
  {
    FilterKeepsAll(rows, (t: Txn) => t.product == "P");
    assert ProductRows(rows, "P") == rows;
    ChurnedMetricOvercounts(rows);
  }

  /** The page skips the analysis exactly when the product has no rows. */
  lemma NoAnalysisIffNoRows(df: seq<Txn>, item: string, threshold: int)
    ensures ChurnAnalysis(df, item, threshold).Err? <==> forall t :: t in df ==> t.product != item
  {
    var rows := ProductRows(df, item);
    if |rows| > 0 {
      assert rows[0] in rows;
    }
  }

  /** `last_purchase` has one row per customer. */
  lemma LastPurchaseTableDistinct(rows: seq<Txn>, threshold: int)
    requires |rows| > 0
    ensures DistinctCustomers(LastPurchaseTable(rows, threshold))
  {
    var table, cs := LastPurchaseTable(rows, threshold), CustomerOrder(rows);
    forall i, j | 0 <= i < j < |table| ensures table[i].customer != table[j].customer {
      assert cs[i] != cs[j];
    }
  }

  /** The page's "Churned Customers" number is the number of the product's
      transactions made by churned customers. */
  lemma ShownCountIsTransactions(rows: seq<Txn>, threshold: int)
    requires |rows| > 0
    ensures var table := LastPurchaseTable(rows, threshold);
      ChurnedMetricAsWritten(table, CohortTable(rows)).0 == |Filter(rows, OfCustomers(ChurnedSet(table)))|
  {
    var table, frame := LastPurchaseTable(rows, threshold), CohortTable(rows);
    LastPurchaseTableDistinct(rows, threshold);
    var cs := ChurnedSet(table);
    FilterPointwise(frame, rows, InCustomers(cs), OfCustomers(cs));
    FilterPointwise(rows, frame, OfCustomers(cs), InCustomers(cs));
  }

  /** The corrected figures of a report: at least one customer, the
      churned count is the number of distinct churned customers, never
      above the total, with a percentage between 0 and 100. */
  lemma ReportFigures(df: seq<Txn>, item: string, threshold: int)
    requires ChurnAnalysis(df, item, threshold).Ok?
    ensures var r := ChurnAnalysis(df, item, threshold).value;
      && 0 < r.totalCustomers == |r.lastPurchase|
      && r.churnedCount == |ChurnedSet(r.lastPurchase)|
      && r.churnedCount <= r.totalCustomers
      && 0.0 <= r.churnedPercent <= 100.0
  {
    var rows := ProductRows(df, item);
    LastPurchaseTableDistinct(rows, threshold);
    ChurnedCountIsDistinct(LastPurchaseTable(rows, threshold));
  }

  /** The figure the page shows: the number of rows of the merged table,
      which is the number of the product's transactions made by churned
      customers and never below the corrected count, and its percentage
      of the customer total. */
  lemma ShownFigures(df: seq<Txn>, item: string, threshold: int)
    requires ChurnAnalysis(df, item, threshold).Ok?
    ensures var r := ChurnAnalysis(df, item, threshold).value;
      && r.shownChurned == |r.churnedCustomers| >= r.churnedCount
      && r.shownChurned == |Filter(ProductRows(df, item), OfCustomers(ChurnedSet(r.lastPurchase)))|
      && r.shownPercent == Share(r.shownChurned, r.totalCustomers)
  {
    var rows := ProductRows(df, item);
    var table, frame := LastPurchaseTable(rows, threshold), CohortTable(rows);
    var r := ChurnAnalysis(df, item, threshold).value;
    assert r.lastPurchase == table && r.churnedCustomers == ChurnedCustomers(table, frame);
    assert (r.shownChurned, r.shownPercent) == ChurnedMetricAsWritten(table, frame);
    assert r.churnedCount == ChurnedCustomerCount(table) && r.totalCustomers == |table|;
    MetricNeverUndercounts(rows, threshold);
    ShownCountIsTransactions(rows, threshold);
  }

  /** `filtered_df`, to which the page adds the `CohortMonth`,
      `OrderMonth` and `MonthsSinceFirstPurchase` columns one at a time. A
      column not yet added is empty. */
  class CohortFrame {
    var txns: seq<Txn>
    var cohortMonth: seq<int>
    var orderMonth: seq<int>
    var monthsSinceFirst: seq<int>

    constructor (rows: seq<Txn>)
      ensures txns == rows && cohortMonth == [] && orderMonth == [] && monthsSinceFirst == []
    {
      txns, cohortMonth, orderMonth, monthsSinceFirst := rows, [], [], [];
    }

    /** `CohortMonth`: every row gets its customer's cohort month. */
    method AddCohortMonth()
      modifies this
      ensures txns == old(txns) && orderMonth == old(orderMonth) && monthsSinceFirst == old(monthsSinceFirst)
      ensures |cohortMonth| == |txns|
      ensures forall i :: 0 <= i < |txns| ==> cohortMonth[i] == CohortMonth(txns, txns[i].customer)
    {
      var rows := txns;
      cohortMonth := seq(|rows|, i requires 0 <= i < |rows| => CohortMonth(rows, rows[i].customer));
    }

    /** `OrderMonth`: every row gets the month of its own date. */
    method AddOrderMonth()
      modifies this
      ensures txns == old(txns) && cohortMonth == old(cohortMonth) && monthsSinceFirst == old(monthsSinceFirst)
      ensures |orderMonth| == |txns|
      ensures forall i :: 0 <= i < |txns| ==> orderMonth[i] == txns[i].month
    {
      var rows := txns;
      orderMonth := seq(|rows|, i requires 0 <= i < |rows| => rows[i].month);
    }

    /** `MonthsSinceFirstPurchase`: the months from the cohort month to the
        order month. */
    method AddMonthsSinceFirst()
      requires |cohortMonth| == |txns| && |orderMonth| == |txns|
      modifies this
      ensures txns == old(txns) && cohortMonth == old(cohortMonth) && orderMonth == old(orderMonth)
      ensures |monthsSinceFirst| == |txns|
      ensures forall i :: 0 <= i < |txns| ==> monthsSinceFirst[i] == orderMonth[i] - cohortMonth[i]
    {
      var n, cohort, order := |txns|, cohortMonth, orderMonth;
      monthsSinceFirst := seq(n, i requires 0 <= i < n => order[i] - cohort[i]);
    }

    function Records(): (rs: seq<CohortRow>)
      reads this
      requires |cohortMonth| == |txns| && |orderMonth| == |txns| && |monthsSinceFirst| == |txns|
    {
      var txns, cohort, order, since := txns, cohortMonth, orderMonth, monthsSinceFirst;
      seq(|txns|, i requires 0 <= i < |txns| => CohortRow(txns[i], cohort[i], order[i], since[i]))
    }
  }

  /** `last_purchase`, to which the page adds `MonthsSinceLastPurchase` and
      `Churned`. */
  class LastPurchaseFrame {
    var customer: seq<string>
    var date: seq<int>
    var month: seq<int>
    var monthsSinceLast: seq<int>
    var churned: seq<bool>

    ghost predicate Valid()
      reads this
    {
      |date| == |customer| && |month| == |customer|
    }

    function Grouped(): seq<LastPurchase>
      reads this
      requires Valid()
    {
      var customer, date, month := customer, date, month;
      seq(|customer|, i requires 0 <= i < |customer| => LastPurchase(customer[i], date[i], month[i]))
    }

    /** `groupby('CustomerName')['date'].max().reset_index()`. */
    constructor (rows: seq<Txn>)
      ensures Valid() && Grouped() == LastPurchases(rows)
      ensures monthsSinceLast == [] && churned == []
    {
      var lp := LastPurchases(rows);
      customer := seq(|lp|, i requires 0 <= i < |lp| => lp[i].customer);
      date := seq(|lp|, i requires 0 <= i < |lp| => lp[i].date);
      month := seq(|lp|, i requires 0 <= i < |lp| => lp[i].month);
      monthsSinceLast, churned := [], [];
    }

    /** `(latest_date - last_purchase['date']).dt.days // 30`. */
    method AddMonthsSinceLast(latest: int)
      requires Valid()
      modifies this
      ensures Valid() && customer == old(customer) && date == old(date) && month == old(month) && churned == old(churned)
      ensures |monthsSinceLast| == |customer|
      ensures forall i :: 0 <= i < |customer| ==> monthsSinceLast[i] == MonthsSince(latest, date[i])
    {
      var date := date;
      monthsSinceLast := seq(|date|, i requires 0 <= i < |date| => (latest - date[i]) / 30);
    }

    /** `last_purchase['MonthsSinceLastPurchase'] > CHURN_THRESHOLD`. */
    method AddChurned(threshold: int)
      requires Valid() && |monthsSinceLast| == |customer|
      modifies this
      ensures Valid() && customer == old(customer) && date == old(date) && month == old(month)
      ensures monthsSinceLast == old(monthsSinceLast)
      ensures |churned| == |customer|
      ensures forall i :: 0 <= i < |customer| ==> churned[i] == (monthsSinceLast[i] > threshold)
    {
      var months := monthsSinceLast;
      churned := seq(|months|, i requires 0 <= i < |months| => months[i] > threshold);
    }

    function Records(): seq<LastPurchaseRow>
      reads this
      requires Valid() && |monthsSinceLast| == |customer| && |churned| == |customer|
    {
      var customer, date, month, since, churned := customer, date, month, monthsSinceLast, churned;
      seq(|customer|, i requires 0 <= i < |customer| =>
        LastPurchaseRow(customer[i], date[i], month[i], since[i], churned[i]))
    }
  }

  /** Lines 52-55 of the page: the product's rows with their three cohort
      columns added in place. */
  method AddCohortColumns(rows: seq<Txn>) returns (cohorts: seq<CohortRow>)
    ensures cohorts == CohortTable(rows)
  {
    var frame := new CohortFrame(rows);
    frame.AddCohortMonth();
    frame.AddOrderMonth();
    frame.AddMonthsSinceFirst();
    cohorts := frame.Records();
  }

  /** Lines 76-79 of the page: `last_purchase` with its two columns added in
      place. */
  method BuildLastPurchase(rows: seq<Txn>, threshold: int) returns (table: seq<LastPurchaseRow>)
    requires |rows| > 0
    ensures table == LastPurchaseTable(rows, threshold)
  {
    var last := new LastPurchaseFrame(rows);
    var latest := LatestDate(rows);
    last.AddMonthsSinceLast(latest);
    last.AddChurned(threshold);
    table := last.Records();
    var lp := LastPurchases(rows);
    forall i | 0 <= i < |lp| ensures table[i] == Flag(lp[i], latest, threshold) {
      assert last.Grouped()[i] == lp[i];
    }
  }

  /** The page's steps for one product: select its rows, stop if there are
      none, add the cohort columns, pivot and divide, build `last_purchase`,
      merge, and compute the rates and figures. */
  method ChurnPage(df: seq<Txn>, item: string, threshold: int) returns (out: Result<ChurnReport, ChurnError>)
    ensures out == ChurnAnalysis(df, item, threshold)
  {
    var rows := ProductRows(df, item);
    if |rows| == 0 {
      return Err(NoDataForProduct(item));
    }
    var cohorts := AddCohortColumns(rows);
    var counts := CohortCounts(cohorts);
    var retention := Retention(cohorts);
    var table := BuildLastPurchase(rows, threshold);
    var merged := ChurnedCustomers(table, cohorts);
    var monthly := MonthlyChurn(table);
    var shown := |merged|;
    var churned := ChurnedCustomerCount(table);
    out := Ok(ChurnReport(
      cohorts, counts, retention, table, merged, monthly,
      |table|, shown, Share(shown, |table|), churned, Percent(churned, |table|)));
  }
}
