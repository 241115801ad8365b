# RFM and product churn analysis, modelled in Dafny

This project models the analysis core of a small sales-analytics dashboard. The dashboard has three pages.

- **SaaS RFM page** (`pages/1.rfmsaas.py`). It groups the uploaded sales table by (branch, route, customer) and computes three columns per group:
  - Recency: days from a reference date to the group's last purchase.
  - Frequency: distinct invoices.
  - Monetary: sum of `NetAmount`.

  Each column is scored 1..5 with `pd.qcut`. Recency uses reversed labels. Frequency is first ranked with `rank(method="first")`. The three digits are joined into an `RFM_Score` code, and an ordered rule table names the customer's segment. The reference date is the day after the latest date.
- **Item RFM page** (`Pages/2.rfmitem.py`). It runs the same computation after narrowing the table to one sub-category and one product, either of which may be "All". The reference date is the latest date of the narrowed table. An empty selection shows a warning instead of a table.
- **Churn page** (`Pages/3_churn.py`). It works on one product's transactions:
  - it assigns each customer an acquisition cohort (the month of their first purchase);
  - it counts the distinct customers of every (cohort, months since first purchase) cell and turns the counts into a retention matrix in percent;
  - it builds a last-purchase table, where a customer is churned when more than a threshold of whole 30-day months separate their last purchase from the product's latest date;
  - it merges the churned customers with their transactions;
  - it reports the churn rate by month of last purchase, the customer total and a "Churned Customers" figure.

  The model's report carries that figure as the page computes it and, beside it, the number of distinct churned customers (see "## Findings").

Modules:

- `Tables` (`tables.dfy`): the parsed transaction row and the table operations the pages share:
  - boolean-mask selection;
  - column maximum and minimum;
  - sums and distinct values;
  - the sorted order in which `groupby` lists its groups (Python's code-point string order).
- `Segmentation` (`segmentation.dfy`): scores, the `RFM_Score` code and the segment rules.
- `Quantiles` (`quantiles.dfy`): `qcut` and `rank(method="first")`.
- `RfmEngine` (`rfm_engine.dfy`): grouping, aggregation and scoring. The `RfmFrame` class is the page's `rfm` DataFrame with its columns assigned one at a time. `RunRfm` is proved to compute the table the functional specification `ComputeRfm` describes.
- `RfmItem` (`rfm_item.dfy`) and `RfmSaas` (`rfm_saas.dfy`): the two RFM pages.
- `Churn` (`churn.dfy`): the cohort, retention and churn computations.
  - The `CohortFrame` and `LastPurchaseFrame` classes are the frames to which the page adds columns in place.
  - `ChurnPage` is proved equal to the specification function `ChurnAnalysis`.

How the model represents the inputs:

- Dates are day numbers. Each row also carries its calendar month, written year * 12 + (month - 1).
- `WellDated` states the only calendar fact the proofs need: a later day never falls in an earlier month.
- `pd.qcut` places its bin edges at linearly interpolated quantiles. The model takes that edge computation as a parameter, `quantiles`, and models what qcut does with the edges:
  - it refuses repeated edges;
  - it assigns values to right-closed bins.

  Where a proof needs more, it assumes only `SpansColumn`: the outer edges are the column's minimum and maximum.

## Model

| member | source | states |
|---|---|---|
| Tables.Filter | Pages/2.rfmitem.py:50-58 | a boolean-mask selection keeps exactly the rows satisfying the mask and never more rows than it had |
| Tables.FilterCompose | Pages/2.rfmitem.py:52-58 | narrowing by category and then by product selects the same rows as one mask with both conditions |
| Tables.LatestRow | Pages/2.rfmitem.py:63 | `df['date'].max()` is the date of a row of the table and no row is later |
| Tables.DistinctBy | Pages/3_churn.py:39 | `unique()` lists each value of the column once, and exactly the values that occur |
| Tables.SortBy | Pages/3_churn.py:39 | `sorted(...)` gives a permutation of its input (equal multisets) in ascending order, repetition-free when the input is |
| Tables.StrLessAsymmetric | Pages/3_churn.py:39 | Python's string order never puts a before b and b before a |
| Tables.StrLessTotal | Pages/3_churn.py:39 | of two different strings Python's order puts one first |
| Tables.InvoiceCountBounds | Pages/2.rfmitem.py:68 | `nunique` of the invoices of a non-empty group lies between 1 and the number of rows |
| Segmentation.Classify | Pages/2.rfmitem.py:82-100 | the ordered segment rules, described without order as a partition of the (R, F, M) cube: each label holds exactly on its region; "Lost Customers" is never returned |
| Segmentation.LostRuleShadowedByAtRisk | Pages/2.rfmitem.py:91-94 | every row the "Lost Customers" rule describes is already "At Risk" |
| Segmentation.MonetaryOnlyMattersInTheMiddle | Pages/2.rfmitem.py:95-100 | the M score changes the segment only when R is 3 or 4 and F at most 3, and there it is "Big Spenders" exactly when M >= 4 |
| Segmentation.LabelsDistinct | pages/1.rfmsaas.py:52-70 | the nine segment labels are pairwise different |
| Segmentation.RfmCode | Pages/2.rfmitem.py:78 | the code has three characters and parses back to the R, F and M scores, R first |
| Segmentation.CodeRoundTrip | pages/1.rfmsaas.py:49 | every string that parses as a code is the code of the scores it parses to |
| Quantiles.Bin | Pages/2.rfmitem.py:74-76 | for ordered edges, a value lands in the right-closed bin between its two surrounding edges |
| Quantiles.BinMonotone | Pages/2.rfmitem.py:74-76 | a larger value never lands in a lower bin |
| Quantiles.QCut | Pages/2.rfmitem.py:74-76 | qcut refuses the column exactly when two of its edges coincide, and otherwise labels every value with the bin its edges give it |
| Quantiles.QCutMonotone | pages/1.rfmsaas.py:45-47 | qcut keeps the order of the values |
| Quantiles.ConstantColumnRefused | pages/1.rfmsaas.py:45 | a column whose values are all equal is refused by qcut |
| Quantiles.ReverseLabel | Pages/2.rfmitem.py:74 | bin b of the Recency column is shown with the b-th of the labels [5, 4, 3, 2, 1] |
| Quantiles.Rank | Pages/2.rfmitem.py:75 | a rank lies between 1 and the column length |
| Quantiles.RankOrder | Pages/2.rfmitem.py:75 | `rank(method="first")` orders by value, and equal values by position |
| Quantiles.RanksDistinct | pages/1.rfmsaas.py:46 | the ranks are pairwise different numbers 1..n, so ties never share a rank |
| RfmEngine.KeyLessIsAsymmetric | Pages/2.rfmitem.py:66 | the order on (branch, route, customer) keys never puts a before b and b before a |
| RfmEngine.KeyLessTotal | Pages/2.rfmitem.py:66 | of two different keys that order puts one first |
| RfmEngine.GroupKeys | Pages/2.rfmitem.py:66 | the groups are the keys that occur in the table, each once, in ascending key order |
| RfmEngine.Group | Pages/2.rfmitem.py:66 | a group holds exactly the rows with its key and is non-empty for a key that occurs |
| RfmEngine.AggregateOf | Pages/2.rfmitem.py:66-71 | Recency is the smallest gap from a row of the group to the reference date, and one such gap; Frequency is the number of distinct invoice strings among the rows with the key, between 1 and the group's row count |
| RfmEngine.Aggregates | pages/1.rfmsaas.py:37-42 | the aggregated table has one row per group, in `groupby` order |
| RfmEngine.AggregateKeys | Pages/2.rfmitem.py:66-71 | the aggregate rows' keys are pairwise different and are exactly the table's keys |
| RfmEngine.AggregatesShift | pages/1.rfmsaas.py:33-38 | moving the reference date d days later adds d to every Recency and changes nothing else |
| RfmEngine.MonetaryAddsUp | Pages/2.rfmitem.py:66-69 | the Monetary column adds up to the `NetAmount` of the whole table: each row's amount is counted in exactly one group |
| RfmEngine.ScoreTable | Pages/2.rfmitem.py:74-103 | a table is produced exactly when qcut accepts all three columns, with one row per aggregate row; a refused Recency column is reported as such, and every failure is a refused column |
| RfmEngine.ComputeRfm | pages/1.rfmsaas.py:37-72 | the computation fails only on a refused column, and a produced table has one row per group |
| RfmEngine.RfmRowsExtendAggregates | Pages/2.rfmitem.py:71-103 | every row of the finished table is its aggregate row with a three-digit code that parses back to its scores and the segment the rules give those scores |
| RfmEngine.RfmTableKeys | Pages/2.rfmitem.py:107 | the finished table has one row per group, in `groupby` order, each with Frequency at least 1 |
| RfmEngine.RecencyAtLeast | Pages/2.rfmitem.py:67 | a reference date at least `gap` days after every row makes every Recency at least `gap` |
| RfmEngine.ScoresFollowValues | Pages/2.rfmitem.py:74-76 | a more recent group never gets a lower R score; a lower Frequency, or an equal one earlier in the table, never a higher F score; a lower Monetary never a higher M score |
| RfmEngine.SameRecencyRefused | Pages/2.rfmitem.py:74 | when every group has the same Recency, the R column is refused and no table is produced |
| RfmEngine.OneGroupRefused | pages/1.rfmsaas.py:45 | a table whose rows all belong to one group produces no RFM table |
| RfmEngine.RfmFrame.constructor | Pages/2.rfmitem.py:66-71 | the new frame's aggregate columns are the aggregated table; no score column is assigned yet |
| RfmEngine.RfmFrame.AssignRScore | Pages/2.rfmitem.py:74 | R_Score becomes the reversed qcut labels of Recency, or the step fails when qcut refuses the column; no other column changes |
| RfmEngine.RfmFrame.AssignFScore | Pages/2.rfmitem.py:75 | F_Score becomes the qcut labels of the first-method ranks of Frequency, or the step fails; no other column changes |
| RfmEngine.RfmFrame.AssignMScore | Pages/2.rfmitem.py:76 | M_Score becomes the qcut labels of Monetary, or the step fails; no other column changes |
| RfmEngine.RfmFrame.AssignCode | Pages/2.rfmitem.py:78 | every RFM_Score is the row's three scores as digits and parses back to them; no other column changes |
| RfmEngine.RfmFrame.AssignSegment | Pages/2.rfmitem.py:103 | every Segment is the rules' segment for the row's scores, never "Lost Customers"; no other column changes |
| RfmEngine.RunRfm | Pages/2.rfmitem.py:66-107 | the column-by-column steps produce exactly the table, or the first refused column, that `ComputeRfm` describes |
| RfmItem.CategoryOptions | Pages/2.rfmitem.py:36 | "All" first, then each sub-category of the table once, sorted |
| RfmItem.ProductOptions | Pages/2.rfmitem.py:40-45 | "All" first, then each product of the chosen category (of the whole table for "All") once, sorted |
| RfmItem.Select | Pages/2.rfmitem.py:50-58 | the Apply button keeps exactly the rows matching both choices, and the whole table for "All" twice |
| RfmItem.OfferedSelectionNonEmpty | Pages/2.rfmitem.py:36-58 | any offered category followed by any product offered for it selects at least one row of a non-empty table |
| RfmItem.ItemRfm | Pages/2.rfmitem.py:60-107 | the page reports no data exactly when the selection is empty, and a shown table has one row per group of the selection |
| RfmItem.ItemNoDataIffEmpty | Pages/2.rfmitem.py:60-61 | the no-data warning appears exactly when no row matches the selection |
| RfmItem.ItemTableShape | Pages/2.rfmitem.py:63-107 | a shown table has one row per group of the selected rows, in order, with Frequency at least 1 and Recency at least 0 |
| RfmItem.RfmItemPage | Pages/2.rfmitem.py:49-107 | the page's successive filters and RFM steps compute `ItemRfm` |
| RfmSaas.ReferenceDate | pages/1.rfmsaas.py:33 | the reference date is after every transaction and exactly one day after the latest one |
| RfmSaas.SaasRfm | pages/1.rfmsaas.py:33-76 | no table exactly for an upload without rows; otherwise one row per group of the upload, or a refused column |
| RfmSaas.SaasTableShape | pages/1.rfmsaas.py:33-76 | the table has one row per group of the upload, in order, with Frequency at least 1 and Recency at least 1 |
| RfmSaas.OneDayLaterThanItemPage | pages/1.rfmsaas.py:33 | on the same table every group's Recency is one more than on the item page with "All" twice; keys, Frequency and Monetary agree |
| RfmSaas.RfmSaasPage | pages/1.rfmsaas.py:33-76 | the page's steps compute `SaasRfm` |
| Churn.ItemOptions | Pages/3_churn.py:37-41 | each product of the table once, sorted |
| Churn.ProductRows | Pages/3_churn.py:44 | exactly the rows of the chosen product |
| Churn.OfferedItemHasRows | Pages/3_churn.py:37-47 | a product chosen from the list always has rows, so the no-data warning cannot follow it |
| Churn.Purchases | Pages/3_churn.py:52 | a customer's rows are exactly the rows with their name, and a customer of the table has at least one |
| Churn.CohortMonth | Pages/3_churn.py:52 | the cohort month is the month of one of the customer's earliest purchases |
| Churn.CohortTable | Pages/3_churn.py:52-55 | every row gets its customer's cohort month, its own month and their difference |
| Churn.OneCohortPerCustomer | Pages/3_churn.py:52 | all rows of a customer carry the same cohort month |
| Churn.OffsetNonNegative | Pages/3_churn.py:54-55 | with dates on a real calendar, no row lies before its cohort month |
| Churn.FirstPurchaseRow | Pages/3_churn.py:52-55 | every customer has a row at offset 0 of their cohort |
| Churn.CohortCounts | Pages/3_churn.py:57-60 | the pivot has a cell exactly where some customer is active, holding the number of distinct active customers (at least 1) |
| Churn.CohortBaseIsCohortSize | Pages/3_churn.py:57-60 | a cohort's offset-0 cell counts every customer of the cohort |
| Churn.CellAtMostBase | Pages/3_churn.py:57-61 | every cell's cohort has an offset-0 cell, and no cell counts more customers than it |
| Churn.FirstOffset | Pages/3_churn.py:61 | the pivot's first column is the smallest offset that occurs |
| Churn.FirstOffsetIsZero | Pages/3_churn.py:61 | with dates on a real calendar the first column is offset 0 |
| Churn.Percent | Pages/3_churn.py:61 | a share of a whole is between 0 and 100 percent, and the whole is 100 |
| Churn.Retention | Pages/3_churn.py:61 | the retention matrix has a value exactly for the cells whose row also has a first-column cell |
| Churn.RetentionBounds | Pages/3_churn.py:59-61 | with dates on a real calendar every cell has a value, offset 0 reads 100 and every value lies in 0..100 |
| Churn.LastPurchaseOf | Pages/3_churn.py:76 | a customer's last purchase is the date of one of their rows, and no row of theirs is later |
| Churn.CustomerOrder | Pages/3_churn.py:76 | `groupby('CustomerName')` lists every customer once, sorted |
| Churn.LastPurchases | Pages/3_churn.py:76 | one row per customer, in `groupby` order, each with the customer's last purchase |
| Churn.LatestDate | Pages/3_churn.py:77 | the latest date is the date of a row and no row is later |
| Churn.MonthsSince | Pages/3_churn.py:78 | `days // 30` is the number of whole 30-day months in the gap, never negative for a gap that is not negative |
| Churn.Flag | Pages/3_churn.py:78-79 | a row keeps its customer, date and month, gets the whole 30-day months since its date, and is churned exactly when they exceed the threshold |
| Churn.LastPurchaseTable | Pages/3_churn.py:76-79 | at least one row; row i is the i-th customer in `groupby` order with that customer's last-purchase date and month |
| Churn.LastPurchaseTableDistinct | Pages/3_churn.py:76 | no customer has two rows in `last_purchase` |
| Churn.LastPurchaseTableFacts | Pages/3_churn.py:77-79 | every months-since value is a non-negative count of whole 30-day months, and the customer is churned exactly when it exceeds the threshold |
| Churn.LowerThresholdChurnsMore | Pages/3_churn.py:79 | lowering the threshold never un-churns a customer |
| Churn.MergeLeft | Pages/3_churn.py:80 | the left merge pairs every left row with exactly the rows of its customer |
| Churn.MergeCount | Pages/3_churn.py:80 | when no customer has two left rows, the merge has exactly one row per right row whose customer is on the left |
| Churn.MergeAtLeastLeft | Pages/3_churn.py:80 | a merge whose left customers all have rows has at least as many rows as its left table |
| Churn.ChurnedCustomers | Pages/3_churn.py:80 | the merged table pairs exactly the churned customers with their transactions |
| Churn.ShownCount | Pages/3_churn.py:80-90 | when no customer has two rows, `len(churned_customers)` is the number of transactions of churned customers |
| Churn.ShownCountIsTransactions | Pages/3_churn.py:76-90 | on the page, the "Churned Customers" number is the number of the product's transactions made by churned customers |
| Churn.CustomerHasCohortRows | Pages/3_churn.py:76-80 | every customer of `last_purchase` has rows in the table it is merged with |
| Churn.MonthRate | Pages/3_churn.py:83 | a month's churn rate lies in 0..100 |
| Churn.MonthlyChurn | Pages/3_churn.py:83 | there is a churn rate for exactly the months of last purchase, each between 0 and 100 |
| Churn.ChurnRateParts | Pages/3_churn.py:83 | a month of last purchase has customers, and no more churned ones than customers |
| Churn.SameMonths | Pages/3_churn.py:79-83 | the threshold does not change the months that have a rate |
| Churn.MoreChurnedCounts | Pages/3_churn.py:83 | a table that churns at least the same customers counts the same customers and at least as many churned ones per month |
| Churn.MoreChurnedHigherRate | Pages/3_churn.py:83 | ... and so gives every month a rate at least as high |
| Churn.LowerThresholdRaisesRates | Pages/3_churn.py:79-83 | lowering the threshold never lowers a month's churn rate |
| Churn.ChurnedMetricAsWritten | Pages/3_churn.py:89-90 | the figure as written counts, for a table with one row per customer, every transaction of a churned customer, and its percentage is that count's share of the customers |
| Churn.ChurnedCustomerCount | Pages/3_churn.py:88-90 | the churned count never exceeds the customer total |
| Churn.ChurnedCountIsDistinct | Pages/3_churn.py:88-90 | in a table with one row per customer, the churned count is the number of distinct churned customers |
| Churn.MetricNeverUndercounts | Pages/3_churn.py:80-90 | the merged table never has fewer rows than there are churned customers |
| Churn.ChurnedMetricOvercounts | Pages/3_churn.py:89-90 | on a concrete table the figure as written shows 3 churned customers (150 percent) where 1 of 2 customers (50 percent) is churned |
| Churn.ExamplePage | Pages/3_churn.py:88-90 | on that table the page's report shows 2 customers and "3 (150.0%)", beside the corrected 1 (50 percent) |
| Churn.ChurnAnalysis | Pages/3_churn.py:44-47 | the page has no analysis exactly when the product has no rows, and then names the product |
| Churn.NoAnalysisIffNoRows | Pages/3_churn.py:46-47 | the page skips the analysis exactly when the product has no rows |
| Churn.ReportFigures | Pages/3_churn.py:88 | the report has at least one customer; its corrected count is the number of distinct churned customers, never above the total, with a percentage in 0..100 |
| Churn.ShownFigures | Pages/3_churn.py:89-90 | the figure the report shows is the merged table's row count, the number of the product's transactions by churned customers, never below the corrected count, with its share of the total as percentage |
| Churn.CohortFrame.constructor | Pages/3_churn.py:44 | the new frame holds the product's rows and no added column yet |
| Churn.CohortFrame.AddCohortMonth | Pages/3_churn.py:52 | every row gets its customer's cohort month; nothing else changes |
| Churn.CohortFrame.AddOrderMonth | Pages/3_churn.py:53 | every row gets its own month; nothing else changes |
| Churn.CohortFrame.AddMonthsSinceFirst | Pages/3_churn.py:54-55 | every row gets its order month minus its cohort month; nothing else changes |
| Churn.LastPurchaseFrame.constructor | Pages/3_churn.py:76 | the new frame is the last-purchase table of the rows, without the added columns |
| Churn.LastPurchaseFrame.AddMonthsSinceLast | Pages/3_churn.py:78 | every customer gets the whole 30-day months since their last purchase; nothing else changes |
| Churn.LastPurchaseFrame.AddChurned | Pages/3_churn.py:79 | every customer is flagged exactly when their months exceed the threshold; nothing else changes |
| Churn.AddCohortColumns | Pages/3_churn.py:52-55 | adding the three columns in place gives `CohortTable` |
| Churn.BuildLastPurchase | Pages/3_churn.py:76-79 | building `last_purchase` in place gives `LastPurchaseTable` |
| Churn.ChurnPage | Pages/3_churn.py:44-90 | the page's steps, including `len(churned_customers)` for the shown figure, compute `ChurnAnalysis` |

## Left out

- The quantile edges are a parameter. The model does not compute pandas' linearly interpolated quantiles. It uses only the facts about them that a proof names (`SpansColumn`), so it does not decide which other tables give repeated edges.
- A value outside the outer edges, which qcut would label NaN, cannot occur with real quantiles. `Bin` puts it in bin 1 or 5.
- Reading the Excel upload, the `date` column check and `pd.to_datetime` are left out. Rows arrive parsed, with a day number and a month.
- The calendar itself is left out. `WellDated` is assumed where the cohort proofs need it.
- `NetAmount` is a whole number. Floating-point sums are not modelled.
- The displayed rounding is not modelled: `round(1)` on the retention matrix and the `:.1f` of the metric.
- The `dropna()` on the category list is not modelled. The model has no missing values.
- Branch and route values are compared as strings. A numeric branch or route column would be ordered numerically by pandas.
- The threshold slider's range 1..12 is not modelled. The model accepts any integer threshold.
- Widgets and their state are not modelled.
- The Streamlit layout, the charts and heatmaps, the Excel reports and the download buttons are left out. So are `home.py` and `utils.py`.
- RfmSaas.SaasRfm: an upload without rows is returned as `Err(NoData)`. The page has no check for it and would fail inside pandas instead.
- Churn.MergeLeft: a left row without any match is not modelled. A left merge would keep it with empty columns, but every customer of `last_purchase` has rows in the product table.
- `InvoiceNumber.astype(str)` is modelled by keeping invoices as strings.

## Findings

| source | as written | input that shows it | evidently intended | confidence | as-written member | corrected member |
|---|---|---|---|---|---|---|
| Pages/3_churn.py:89-90 | the "Churned Customers" figure is `len(churned_customers)`, the row count of the churned customers merged with all their transactions, so it counts each churned customer once per purchase | one product; customer A buys on days 0, 1 and 2, customer B on day 200; threshold 3: A is churned and B is not, and the page shows "3 (150.0%)" | the number of distinct churned customers and their share of all customers, "1 (50.0%)" | not executed | Churn.ChurnedMetricOvercounts | Churn.ChurnedCustomerCount |
