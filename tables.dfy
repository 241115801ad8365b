/** The parsed sales table and the table operations the three pages share:
    boolean-mask selection, column maximum and minimum, sum, distinct values
    of a column, and the sorted order in which pandas lists the groups of a
    `groupby`. */
module Tables {

  datatype Option<T> = None | Some(value: T)

  datatype Result<T, E> = Ok(value: T) | Err(error: E)

  /** One row of the uploaded sales table after `pd.to_datetime`.
      `date` is the day number of the `date` column, `month` the calendar
      month that day falls in, written year * 12 + (month - 1), and `amount`
      the `NetAmount` in whole currency units. The other fields are the
      `InvoiceNumber` (as a string), `CustomerName`, `branch`, `route`,
      `SubCategoryName` and `StockName` columns. */
  datatype Txn = Txn(
    date: int,
    month: int,
    invoice: string,
    customer: string,
    branch: string,
    route: string,
    category: string,
    product: string,
    amount: int)

  /** What date parsing guarantees of a real calendar: a later day never
      falls in an earlier month. */
  ghost predicate WellDated(rows: seq<Txn>)
  {
    forall i, j :: 0 <= i < |rows| && 0 <= j < |rows| && rows[i].date <= rows[j].date ==> rows[i].month <= rows[j].month
  }

  /** `s[mask]`: the elements that satisfy `keep`, in their original order. */
  function Filter<T(!new)>(s: seq<T>, keep: T -> bool): (r: seq<T>)
    ensures |r| <= |s|
    ensures forall x :: x in r <==> x in s && keep(x)
  {
    if s == [] then []
    else
      assert s == [s[0]] + s[1..];
      var rest := Filter(s[1..], keep);
      if keep(s[0]) then [s[0]] + rest else rest
  }

  lemma {:induction false} FilterKeepsAll<T(!new)>(s: seq<T>, keep: T -> bool)
    requires forall x :: x in s ==> keep(x)
    ensures Filter(s, keep) == s
  {
    if s != [] {
      assert forall x :: x in s[1..] ==> x in s;
      FilterKeepsAll(s[1..], keep);
    }
  }

  /** Selecting with a weaker mask never keeps fewer elements. */
  lemma {:induction false} FilterMonotone<T(!new)>(s: seq<T>, strong: T -> bool, weak: T -> bool)
    requires forall x :: x in s && strong(x) ==> weak(x)
    ensures |Filter(s, strong)| <= |Filter(s, weak)|
  {
    if s != [] {
      assert forall x :: x in s[1..] ==> x in s;
      FilterMonotone(s[1..], strong, weak);
    }
  }

  /** Of two tables of the same length, the second keeps at least as many
      rows as the first when each row the first keeps is matched by a kept
      row at the same position of the second. */
  lemma {:induction false} FilterPointwise<T(!new), U(!new)>(s: seq<T>, t: seq<U>, p: T -> bool, q: U -> bool)
    requires |s| == |t|
    requires forall i :: 0 <= i < |s| && p(s[i]) ==> q(t[i])
    ensures |Filter(s, p)| <= |Filter(t, q)|
  {
    if s != [] {
      FilterPointwise(s[1..], t[1..], p, q);
    }
  }

  /** Selecting from two tables placed end to end is selecting from each. */
  lemma {:induction false} FilterAppend<T(!new)>(s: seq<T>, t: seq<T>, keep: T -> bool)
    ensures Filter(s + t, keep) == Filter(s, keep) + Filter(t, keep)
  {
    if s != [] {
      assert (s + t)[1..] == s[1..] + t;
      FilterAppend(s[1..], t, keep);
    } else {
      assert s + t == t;
    }
  }

  /** Two masks that agree on every element select the same rows. */
  lemma {:induction false} FilterSameMask<T(!new)>(s: seq<T>, p: T -> bool, q: T -> bool)
    requires forall x :: x in s ==> p(x) == q(x)
    ensures Filter(s, p) == Filter(s, q)
  {
    if s != [] {
      assert forall x :: x in s[1..] ==> x in s;
      FilterSameMask(s[1..], p, q);
    }
  }

  /** Selecting with `p` and then with `q` is selecting once with both. */
  lemma {:induction false} FilterCompose<T(!new)>(s: seq<T>, p: T -> bool, q: T -> bool, both: T -> bool)
    requires forall x :: x in s ==> both(x) == (p(x) && q(x))
    ensures Filter(Filter(s, p), q) == Filter(s, both)
  {
    if s != [] {
      assert forall x :: x in s[1..] ==> x in s;
      FilterCompose(s[1..], p, q, both);
    }
  }

  /** A mask that keeps nothing selects nothing. */
  lemma FilterNone<T(!new)>(s: seq<T>, keep: T -> bool)
    requires forall x :: x in s ==> !keep(x)
    ensures Filter(s, keep) == []
  {
    if Filter(s, keep) != [] {
      assert Filter(s, keep)[0] in Filter(s, keep);
    }
  }

  /** Selecting with the union of two masks that never both hold keeps as
      many rows as selecting with each. */
  lemma {:induction false} FilterSplit<T(!new)>(s: seq<T>, p: T -> bool, q: T -> bool, either: T -> bool)
    requires forall x :: x in s ==> either(x) == (p(x) || q(x)) && !(p(x) && q(x))
    ensures |Filter(s, either)| == |Filter(s, p)| + |Filter(s, q)|
  {
    if s != [] {
      assert forall x :: x in s[1..] ==> x in s;
      FilterSplit(s[1..], p, q, either);
    }
  }

  /** The row holding `df['date'].max()` (the first such row). */
  function LatestRow(rows: seq<Txn>): (e: Txn)
    requires |rows| > 0
    ensures e in rows
    ensures forall t :: t in rows ==> t.date <= e.date
  {
    if |rows| == 1 then rows[0]
    else
      assert rows == [rows[0]] + rows[1..];
      var rest := LatestRow(rows[1..]);
      if rows[0].date >= rest.date then rows[0] else rest
  }

  /** The row holding `df['date'].min()` (the first such row). */
  function EarliestRow(rows: seq<Txn>): (e: Txn)
    requires |rows| > 0
    ensures e in rows
    ensures forall t :: t in rows ==> e.date <= t.date
  {
    if |rows| == 1 then rows[0]
    else
      assert rows == [rows[0]] + rows[1..];
      var rest := EarliestRow(rows[1..]);
      if rows[0].date <= rest.date then rows[0] else rest
  }

  /** `NetAmount.sum()`. */
  function NetTotal(rows: seq<Txn>): int
  {
    if rows == [] then 0 else rows[0].amount + NetTotal(rows[1..])
  }

  /** The `NetAmount` sum over the union of two masks that never both hold
      is the sum of the two. */
  lemma {:induction false} NetTotalSplit(s: seq<Txn>, p: Txn -> bool, q: Txn -> bool, either: Txn -> bool)
    requires forall x :: x in s ==> either(x) == (p(x) || q(x)) && !(p(x) && q(x))
    ensures NetTotal(Filter(s, either)) == NetTotal(Filter(s, p)) + NetTotal(Filter(s, q))
  {
    if s != [] {
      assert forall x :: x in s[1..] ==> x in s;
      NetTotalSplit(s[1..], p, q, either);
    }
  }

  /** The distinct `InvoiceNumber` strings of some rows; `nunique` is its size. */
  function Invoices(rows: seq<Txn>): set<string>
  {
    set t | t in rows :: t.invoice
  }

  /** A table has at least one and at most as many distinct invoices as rows. */
  lemma {:induction false} InvoiceCountBounds(rows: seq<Txn>)
    ensures |rows| > 0 ==> 1 <= |Invoices(rows)|
    ensures |Invoices(rows)| <= |rows|
  {
    if rows != [] {
      assert rows[0].invoice in Invoices(rows);
      InvoiceCountBounds(rows[1..]);
      assert rows == [rows[0]] + rows[1..];
      assert Invoices(rows) == {rows[0].invoice} + Invoices(rows[1..]);
    }
  }

  ghost predicate Distinct<K>(s: seq<K>)
  {
    forall i, j :: 0 <= i < j < |s| ==> s[i] != s[j]
  }

  /** The distinct values of a column, in order of first appearance. */
  function DistinctBy<K(==,!new)>(rows: seq<Txn>, column: Txn -> K): (r: seq<K>)
    ensures Distinct(r)
    ensures forall k :: k in r <==> exists t :: t in rows && column(t) == k
  {
    if rows == [] then []
    else
      var init := rows[..|rows| - 1];
      var last := rows[|rows| - 1];
      assert rows == init + [last];
      var rest := DistinctBy(init, column);
      if column(last) in rest then rest else rest + [column(last)]
  }

  /** A sequence without repetitions drawn from a set is no longer than
      the set is large. */
  lemma {:induction false} DistinctWithin<K>(s: seq<K>, within: set<K>)
    requires Distinct(s)
    requires forall x :: x in s ==> x in within
    ensures |s| <= |within|
  {
    if s != [] {
      var rest := s[1..];
      assert forall x :: x in rest ==> x in within - {s[0]} by {
        forall x | x in rest ensures x in within - {s[0]} {
          var k :| 0 <= k < |rest| && rest[k] == x;
          assert s[k + 1] == x;
        }
      }
      DistinctWithin(rest, within - {s[0]});
    }
  }

  /** Python's ordering of strings: lexicographic by code point, a proper
      prefix first. */
  predicate StrLess(a: string, b: string)
  {
    if a == [] then b != []
    else if b == [] then false
    else if a[0] != b[0] then a[0] < b[0]
    else StrLess(a[1..], b[1..])
  }

  function Insert<K(==,!new)>(x: K, s: seq<K>, less: (K, K) -> bool): (r: seq<K>)
    ensures |r| == |s| + 1
    ensures forall y :: y in r <==> y == x || y in s
    ensures multiset(r) == multiset(s) + multiset{x}
    ensures Distinct(s) && x !in s ==> Distinct(r)
    ensures r[0] == x || (|s| > 0 && r[0] == s[0])
    ensures Asymmetric(less) && SortedBy(s, less) ==> SortedBy(r, less)
  {
    if s == [] || less(x, s[0]) then [x] + s
    else
      assert s == [s[0]] + s[1..];
      var rest := Insert(x, s[1..], less);
      assert Distinct(s) && x !in s ==> s[0] !in rest by {
        if Distinct(s) && x !in s {
          forall k | 1 <= k < |s| ensures s[k] != s[0] { }
        }
      }
      [s[0]] + rest
  }

  /** The order in which a sorting `groupby` lists its groups. */
  function SortBy<K(==,!new)>(s: seq<K>, less: (K, K) -> bool): (r: seq<K>)
    ensures |r| == |s|
    ensures forall y :: y in r <==> y in s
    ensures multiset(r) == multiset(s)
    ensures Distinct(s) ==> Distinct(r)
    ensures Asymmetric(less) ==> SortedBy(r, less)
  {
    if s == [] then []
    else
      assert s == [s[0]] + s[1..];
      Insert(s[0], SortBy(s[1..], less), less)
  }

  ghost predicate SortedBy<K>(s: seq<K>, less: (K, K) -> bool)
  {
    forall i :: 0 <= i < |s| - 1 ==> !less(s[i + 1], s[i])
  }

  ghost predicate Asymmetric<K(!new)>(less: (K, K) -> bool)
  {
    forall a, b :: less(a, b) ==> !less(b, a)
  }

  /** Python's string order is a strict order: never both a < b and b < a. */
  lemma {:induction false} StrLessAsymmetric(a: string, b: string)
    ensures StrLess(a, b) ==> !StrLess(b, a)
  {
    if a != [] && b != [] && a[0] == b[0] {
      StrLessAsymmetric(a[1..], b[1..]);
    }
  }

  /** Python's string order is total: of two different strings one comes
      first. */
  lemma {:induction false} StrLessTotal(a: string, b: string)
    ensures a != b ==> StrLess(a, b) || StrLess(b, a)
  {
    if a != [] && b != [] && a[0] == b[0] {
      StrLessTotal(a[1..], b[1..]);
      assert a == [a[0]] + a[1..] && b == [b[0]] + b[1..];
    }
  }

  lemma StrLessIsAsymmetric()
    ensures Asymmetric(StrLess)
  {
    forall a, b ensures StrLess(a, b) ==> !StrLess(b, a) {
      StrLessAsymmetric(a, b);
    }
  }
}
