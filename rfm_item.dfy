/** The item RFM page: the sales table narrowed to one sub-category and one
    product (either may be "All"), then the RFM computation with the latest
    date of the narrowed table as the reference date. */
module RfmItem {

  import opened Tables
  import opened Segmentation
  import opened Quantiles
  import opened RfmEngine

  /** The choice that stands for no filter on a column. */
  const All := "All"

  /** The two sidebar choices: a `SubCategoryName` and a `StockName`. */
  datatype Selection = Selection(category: string, product: string)

  /** The row passes both filters; "All" lets every row through. */
  predicate Matches(sel: Selection, t: Txn)
  {
    (sel.category == All || t.category == sel.category)
    && (sel.product == All || t.product == sel.product)
  }

  /** The category choices: "All", then each sub-category of the table once,
      in Python's string order. */
  function CategoryOptions(df: seq<Txn>): (opts: seq<string>)
    ensures |opts| > 0 && opts[0] == All
    ensures forall c :: c in opts[1..] <==> exists t :: t in df && t.category == c
    ensures Distinct(opts[1..]) && SortedBy(opts[1..], StrLess)
  {
    StrLessIsAsymmetric();
    var opts := [All] + SortBy(DistinctBy(df, (t: Txn) => t.category), StrLess);
    assert opts[1..] == SortBy(DistinctBy(df, (t: Txn) => t.category), StrLess);
    opts
  }

  /** The product choices: "All", then each product of the chosen category
      (of the whole table for "All") once, in Python's string order. */
  function ProductOptions(df: seq<Txn>, category: string): (opts: seq<string>)
    ensures |opts| > 0 && opts[0] == All
    ensures forall p :: p in opts[1..] <==>
      exists t :: t in df && (category == All || t.category == category) && t.product == p
    ensures Distinct(opts[1..]) && SortedBy(opts[1..], StrLess)
  {
    StrLessIsAsymmetric();
    var inCategory := if category != All then Filter(df, (t: Txn) => t.category == category) else df;
    var opts := [All] + SortBy(DistinctBy(inCategory, (t: Txn) => t.product), StrLess);
    assert opts[1..] == SortBy(DistinctBy(inCategory, (t: Txn) => t.product), StrLess);
    opts
  }

  /** The rows the Apply button keeps: exactly the rows that match the
      selection, in table order; with "All" twice, the whole table. */
  function Select(df: seq<Txn>, sel: Selection): (r: seq<Txn>)
    ensures |r| <= |df|
    ensures forall t :: t in r <==> t in df && Matches(sel, t)
    ensures sel.category == All && sel.product == All ==> r == df
  {
    var r := Filter(df, t => Matches(sel, t));
    if sel.category == All && sel.product == All then
      FilterKeepsAll(df, t => Matches(sel, t));
      r
    else r
  }

  /** Choosing any offered category and then any product offered for it
      never selects an empty table, as long as the table has rows. */
  lemma OfferedSelectionNonEmpty(df: seq<Txn>, sel: Selection)
    requires |df| > 0
    requires sel.category in CategoryOptions(df)
    requires sel.product in ProductOptions(df, sel.category)
    ensures |Select(df, sel)| > 0
  {
    var cats, prods := CategoryOptions(df), ProductOptions(df, sel.category);
    if sel.product != All {
      var i :| 0 <= i < |prods| && prods[i] == sel.product;
      assert prods[i] in prods[1..];
      var t :| t in df && (sel.category == All || t.category == sel.category) && t.product == sel.product;
      assert t in Select(df, sel);
    } else if sel.category != All {
      var i :| 0 <= i < |cats| && cats[i] == sel.category;
      assert cats[i] in cats[1..];
      var t :| t in df && t.category == sel.category;
      assert t in Select(df, sel);
    } else {
      assert df[0] in Select(df, sel);
    }
  }

  /** What the Apply button shows: no table for an empty selection,
      otherwise the RFM table of the selected rows seen from their latest
      date. */
  function ItemRfm(df: seq<Txn>, sel: Selection, quantiles: seq<int> -> Edges): (r: Result<seq<RfmRecord>, RfmError>)
    ensures r == Err(NoData) <==> |Select(df, sel)| == 0
    ensures r.Ok? ==> |r.value| == |GroupKeys(Select(df, sel))|
  {
    var filtered := Select(df, sel);
    if |filtered| == 0 then Err(NoData)
    else ComputeRfm(filtered, LatestRow(filtered).date, quantiles)
  }

  /** The page shows the no-data warning exactly when no row matches. */
  lemma ItemNoDataIffEmpty(df: seq<Txn>, sel: Selection, quantiles: seq<int> -> Edges)
    ensures ItemRfm(df, sel, quantiles) == Err(NoData) <==> forall t :: t in df ==> !Matches(sel, t)
  {
    var filtered := Select(df, sel);
    if |filtered| > 0 {
      assert filtered[0] in filtered;
    }
  }

  /** A table the page shows has one row per group of the selected rows,
      each with Frequency at least one and Recency at least zero. */
  lemma ItemTableShape(df: seq<Txn>, sel: Selection, quantiles: seq<int> -> Edges)
    requires ItemRfm(df, sel, quantiles).Ok?
    ensures var t, filtered := ItemRfm(df, sel, quantiles).value, Select(df, sel);
      && |t| == |GroupKeys(filtered)|
      && forall i :: 0 <= i < |t| ==>
           && t[i].key == GroupKeys(filtered)[i]
           && t[i].frequency >= 1
           && t[i].recency >= 0
  {
    var filtered := Select(df, sel);
    var today := LatestRow(filtered).date;
    RfmTableKeys(filtered, today, quantiles);
    RecencyAtLeast(filtered, today, quantiles, 0);
    var t := ComputeRfm(filtered, today, quantiles).value;
    forall i | 0 <= i < |t| ensures t[i].recency >= 0 {
      assert t[i] in t;
    }
  }

  /** The Apply button's steps: copy the table, narrow it by category, then
      by product, stop on an empty result, otherwise compute the RFM table
      from the latest remaining date. */
  method RfmItemPage(df: seq<Txn>, category: string, product: string, quantiles: seq<int> -> Edges)
    returns (out: Result<seq<RfmRecord>, RfmError>)
    ensures out == ItemRfm(df, Selection(category, product), quantiles)
  {
    var sel := Selection(category, product);
    var byCategory: Txn -> bool := (t: Txn) => t.category == category;
    var byProduct: Txn -> bool := (t: Txn) => t.product == product;
    var filtered := df;
    if category != All {
      filtered := Filter(filtered, byCategory);
    }
    if product != All {
      filtered := Filter(filtered, byProduct);
    }
    if category != All && product != All {
      FilterCompose(df, byCategory, byProduct, t => Matches(sel, t));
    } else if category != All {
      FilterSameMask(df, byCategory, t => Matches(sel, t));
    } else if product != All {
      FilterSameMask(df, byProduct, t => Matches(sel, t));
    }
    assert filtered == Select(df, sel);
    if |filtered| == 0 {
      return Err(NoData);
    }
    var today := LatestRow(filtered).date;
    out := RunRfm(filtered, today, quantiles);
  }
}
