/** The SaaS RFM page: the RFM computation over the whole uploaded table,
    with the day after its latest date as the reference date. */
module RfmSaas {

  import opened Tables
  import opened Quantiles
  import opened RfmEngine
  import RfmItem

  /** `df['date'].max() + pd.Timedelta(days=1)`. */
  function ReferenceDate(df: seq<Txn>): (today: int)
    requires |df| > 0
    ensures forall t :: t in df ==> t.date < today
    ensures exists t :: t in df && t.date == today - 1
  {
    LatestRow(df).date + 1
  }

  /** The table the page shows for an upload; an upload without rows has no
      table. */
  function SaasRfm(df: seq<Txn>, quantiles: seq<int> -> Edges): (r: Result<seq<RfmRecord>, RfmError>)
    ensures r == Err(NoData) <==> |df| == 0
    ensures r.Ok? ==> |r.value| == |GroupKeys(df)|
  {
    if |df| == 0 then Err(NoData)
    else ComputeRfm(df, ReferenceDate(df), quantiles)
  }

  /** The table has one row per group of the whole upload, each with
      Frequency at least one and Recency at least one day. */
  lemma SaasTableShape(df: seq<Txn>, quantiles: seq<int> -> Edges)
    requires SaasRfm(df, quantiles).Ok?
    ensures var t := SaasRfm(df, quantiles).value;
      && |t| == |GroupKeys(df)|
      && forall i :: 0 <= i < |t| ==>
           && t[i].key == GroupKeys(df)[i]
           && t[i].frequency >= 1
           && t[i].recency >= 1
  {
    var today := ReferenceDate(df);
    RfmTableKeys(df, today, quantiles);
    RecencyAtLeast(df, today, quantiles, 1);
    var t := ComputeRfm(df, today, quantiles).value;
    forall i | 0 <= i < |t| ensures t[i].recency >= 1 {
      assert t[i] in t;
    }
  }

  /** On the same table, each group's Recency here is exactly one day more
      than the item page's with "All" selected twice, and its key,
      Frequency and Monetary are the same. */
  lemma OneDayLaterThanItemPage(df: seq<Txn>)
    requires |df| > 0
    ensures var sel := RfmItem.Selection(RfmItem.All, RfmItem.All);
      var here := Aggregates(df, ReferenceDate(df));
      var item := Aggregates(RfmItem.Select(df, sel), LatestRow(RfmItem.Select(df, sel)).date);
      && |here| == |item|
      && forall i :: 0 <= i < |here| ==>
           && here[i].key == item[i].key
           && here[i].recency == item[i].recency + 1
           && here[i].frequency == item[i].frequency
           && here[i].monetary == item[i].monetary
  {
    AggregatesShift(df, LatestRow(df).date, 1);
  }

  /** The page's steps: the reference date, then the `rfm` frame built
      column by column. */
  method RfmSaasPage(df: seq<Txn>, quantiles: seq<int> -> Edges) returns (out: Result<seq<RfmRecord>, RfmError>)
    ensures out == SaasRfm(df, quantiles)
  {
    if |df| == 0 {
      return Err(NoData);
    }
    var today := LatestRow(df).date + 1;
    out := RunRfm(df, today, quantiles);
  }
}
