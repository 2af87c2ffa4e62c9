/** The analytics panel: the distinct expense years, newest first; the
    expenses of a year and of a month; the per-year and per-month totals fed
    to the pie-chart entry lists (only positive totals, labelled by the year or the month
    name); and the summary figures. */
module Analytics {
  import opened Seqs
  import opened Text
  import opened Calendar
  import opened Expenses

  predicate StrictlyDescending(s: seq<int>) {
    forall i, j :: 0 <= i < j < |s| ==> s[i] > s[j]
  }

  predicate StrictlyAscending(s: seq<int>) {
    forall i, j :: 0 <= i < j < |s| ==> s[i] < s[j]
  }

  /** Adds `y` to a strictly descending list of years, unless it is there. */
  function InsertYear(y: int, ys: seq<int>): (r: seq<int>)
    requires StrictlyDescending(ys)
    ensures StrictlyDescending(r)
    ensures forall z :: z in r <==> z == y || z in ys
    ensures r != [] && (r[0] == y || (ys != [] && r[0] == ys[0]))
    decreases |ys|
  {
    if ys == [] then [y]
    else if y > ys[0] then [y] + ys
    else if y == ys[0] then ys
    else
      var rest := InsertYear(y, ys[1..]);
      assert forall z :: z in ys <==> z == ys[0] || z in ys[1..];
      [ys[0]] + rest
  }

  /** `[...new Set(expenses.map(e => e.date.getFullYear()))].sort((a, b) => b - a)`. */
  function Years(es: seq<Expense>): (r: seq<int>)
    ensures StrictlyDescending(r)
    decreases |es|
  {
    if es == [] then [] else InsertYear(es[|es| - 1].date.year, Years(es[..|es| - 1]))
  }

  /** Each year of an expense is listed, and nothing else. */
  lemma {:induction false} YearsMembership(es: seq<Expense>, y: int)
    ensures y in Years(es) <==> exists k :: 0 <= k < |es| && es[k].date.year == y
    decreases |es|
  {
    if es != [] {
      var init := es[..|es| - 1];
      YearsMembership(init, y);
      if exists k :: 0 <= k < |init| && init[k].date.year == y {
        var k :| 0 <= k < |init| && init[k].date.year == y;
        assert es[k].date.year == y;
      }
      if exists k :: 0 <= k < |es| && es[k].date.year == y {
        var k :| 0 <= k < |es| && es[k].date.year == y;
        if k < |init| {
          assert init[k].date.year == y;
        }
      }
    }
  }

  /** A strictly descending list has no repeats: each year appears once. */
  lemma {:induction false} YearsDistinct(es: seq<Expense>)
    ensures forall i, j :: 0 <= i < |Years(es)| && 0 <= j < |Years(es)| && i != j ==> Years(es)[i] != Years(es)[j]
  {
  }

  /** `getExpensesByYear(year)`: that year's expenses, in order, each as
      often as it occurs. */
  function ByYear(es: seq<Expense>, year: int): (r: seq<Expense>)
    ensures IsSubsequence(r, es)
    ensures forall e :: e in r <==> e in es && e.date.year == year
    ensures forall e :: multiset(r)[e] == if e.date.year == year then multiset(es)[e] else 0
  {
    var keep := (e: Expense) => e.date.year == year;
    FilterCount(es, keep);
    Filter(es, keep)
  }

  /** `getExpensesByMonth(year, month)`: that month's expenses, in order,
      each as often as it occurs. */
  function ByMonth(es: seq<Expense>, year: int, month: int): (r: seq<Expense>)
    ensures IsSubsequence(r, es)
    ensures forall e :: e in r <==> e in es && e.date.year == year && e.date.month == month
    ensures forall e :: multiset(r)[e] == if e.date.year == year && e.date.month == month then multiset(es)[e] else 0
  {
    var keep := (e: Expense) => e.date.year == year && e.date.month == month;
    FilterCount(es, keep);
    Filter(es, keep)
  }

  /** A month's expenses are an order-preserving subsequence of its year's. */
  lemma {:induction false} MonthWithinYear(es: seq<Expense>, year: int, month: int)
    ensures IsSubsequence(ByMonth(es, year, month), ByYear(es, year))
  {
    FilterNarrower(es, (e: Expense) => e.date.year == year && e.date.month == month, (e: Expense) => e.date.year == year);
  }

  /** One `{ category, amount }` entry of a list the panel hands to a pie
      chart: a name and a total. */
  datatype ChartEntry = ChartEntry(category: string, amount: real)

  /** The reduce over `keys` that pushes `{ name, total }` for each key whose
      total is positive, in key order. */
  function PositiveBars(keys: seq<int>, name: int -> string, total: int -> real): (r: seq<ChartEntry>)
    decreases |keys|
  {
    if keys == [] then []
    else
      var before := PositiveBars(keys[..|keys| - 1], name, total);
      var k := keys[|keys| - 1];
      if total(k) > 0.0 then before + [ChartEntry(name(k), total(k))] else before
  }

  /** `total > 0` as a filter condition. */
  function Positive(total: int -> real): int -> bool {
    k => total(k) > 0.0
  }

  /** The entries are the keys with a positive total, in key order, each
      labelled and carrying its total. */
  lemma {:induction false} PositiveBarsSpec(keys: seq<int>, name: int -> string, total: int -> real)
    ensures var kept := Filter(keys, Positive(total));
      var r := PositiveBars(keys, name, total);
      && |r| == |kept|
      && forall i :: 0 <= i < |r| ==> r[i] == ChartEntry(name(kept[i]), total(kept[i]))
    decreases |keys|
  {
    if keys != [] {
      var init, k := keys[..|keys| - 1], keys[|keys| - 1];
      PositiveBarsSpec(init, name, total);
      assert keys == init + [k];
      FilterSnoc(init, k, Positive(total));
    }
  }

  /** The year name `year.toString()`. */
  function YearLabel(year: int): string {
    IntToDecimal(year)
  }

  const MonthNames: seq<string> := [
    "January", "February", "March", "April", "May", "June",
    "July", "August", "September", "October", "November", "December"
  ]

  function MonthLabel(m: int): string {
    if 0 <= m < 12 then MonthNames[m] else ""
  }

  /** The indices `months.reduce` passes: 0 for January to 11 for December. */
  const MonthIndices: seq<int> := seq(12, i => i)

  /** The sum of the amounts of `year`. */
  function YearTotal(es: seq<Expense>, year: int): real {
    AmountSum(ByYear(es, year))
  }

  /** The sum of the amounts of month `month` of `year`. */
  function MonthTotal(es: seq<Expense>, year: int, month: int): real {
    AmountSum(ByMonth(es, year, month))
  }

  function YearTotals(es: seq<Expense>): int -> real {
    y => YearTotal(es, y)
  }

  function MonthTotals(es: seq<Expense>, year: int): int -> real {
    m => MonthTotal(es, year, m)
  }

  /** `expensesByYear`. */
  function YearBars(es: seq<Expense>): seq<ChartEntry> {
    PositiveBars(Years(es), YearLabel, YearTotals(es))
  }

  /** `expensesByMonth` for `currentYear`. */
  function MonthBars(es: seq<Expense>, currentYear: int): seq<ChartEntry> {
    PositiveBars(MonthIndices, MonthLabel, MonthTotals(es, currentYear))
  }

  /** One pie-chart entry per year with a positive total, newest year first, labelled
      with the year and carrying the sum of that year's amounts. */
  lemma {:induction false} YearBarsSpec(es: seq<Expense>)
    ensures var kept := Filter(Years(es), Positive(YearTotals(es)));
      var r := YearBars(es);
      && StrictlyDescending(kept)
      && (forall y :: y in kept <==> y in Years(es) && YearTotal(es, y) > 0.0)
      && |r| == |kept|
      && forall i :: 0 <= i < |r| ==> r[i] == ChartEntry(YearLabel(kept[i]), YearTotal(es, kept[i]))
  {
    PositiveBarsSpec(Years(es), YearLabel, YearTotals(es));
    SubsequenceOrdered(Filter(Years(es), Positive(YearTotals(es))), Years(es));
  }

  /** One pie-chart entry per month of `currentYear` with a positive total, January
      first, labelled with the month's name and carrying its sum. */
  lemma {:induction false} MonthBarsSpec(es: seq<Expense>, currentYear: int)
    ensures var kept := Filter(MonthIndices, Positive(MonthTotals(es, currentYear)));
      var r := MonthBars(es, currentYear);
      && StrictlyAscending(kept)
      && (forall m :: m in kept <==> 0 <= m < 12 && MonthTotal(es, currentYear, m) > 0.0)
      && |r| == |kept|
      && forall i :: 0 <= i < |r| ==>
           && 0 <= kept[i] < 12
           && r[i] == ChartEntry(MonthNames[kept[i]], MonthTotal(es, currentYear, kept[i]))
  {
    PositiveBarsSpec(MonthIndices, MonthLabel, MonthTotals(es, currentYear));
    var kept := Filter(MonthIndices, Positive(MonthTotals(es, currentYear)));
    SubsequenceAscending(kept, MonthIndices);
    forall m | 0 <= m < 12
      ensures m in MonthIndices
    {
      assert MonthIndices[m] == m;
    }
    assert forall i :: 0 <= i < |kept| ==> kept[i] in kept;
  }

  /** An order-preserving subsequence of a strictly descending list is
      strictly descending. */
  lemma {:induction false} SubsequenceOrdered(a: seq<int>, b: seq<int>)
    requires IsSubsequence(a, b) && StrictlyDescending(b)
    ensures StrictlyDescending(a)
    ensures forall x :: x in a ==> x in b
    decreases |b|
  {
    if a != [] {
      if a[0] == b[0] && IsSubsequence(a[1..], b[1..]) {
        SubsequenceOrdered(a[1..], b[1..]);
        assert forall x :: x in a ==> x == a[0] || x in a[1..];
        forall j | 1 <= j < |a|
          ensures a[0] > a[j]
        {
          assert a[j] == a[1..][j - 1];
          assert a[j] in a[1..];
          assert a[j] in b[1..];
          var k :| 0 <= k < |b[1..]| && b[1..][k] == a[j];
          assert b[k + 1] == a[j];
        }
      } else {
        SubsequenceOrdered(a, b[1..]);
      }
    }
  }

  lemma {:induction false} SubsequenceAscending(a: seq<int>, b: seq<int>)
    requires IsSubsequence(a, b) && StrictlyAscending(b)
    ensures StrictlyAscending(a)
    ensures forall x :: x in a ==> x in b
    decreases |b|
  {
    if a != [] {
      if a[0] == b[0] && IsSubsequence(a[1..], b[1..]) {
        SubsequenceAscending(a[1..], b[1..]);
        assert forall x :: x in a ==> x == a[0] || x in a[1..];
        forall j | 1 <= j < |a|
          ensures a[0] < a[j]
        {
          assert a[j] == a[1..][j - 1];
          assert a[j] in a[1..];
          assert a[j] in b[1..];
          var k :| 0 <= k < |b[1..]| && b[1..][k] == a[j];
          assert b[k + 1] == a[j];
        }
      } else {
        SubsequenceAscending(a, b[1..]);
      }
    }
  }

  /** The three summary figures. */
  datatype Summary = Summary(totalYears: nat, currentYearTotal: real, currentMonthTotal: real)

  /** The summary for the current date `now`. */
  function SummaryOf(es: seq<Expense>, now: Moment): Summary {
    Summary(|Years(es)|, YearTotal(es, now.year), MonthTotal(es, now.year, now.month))
  }

  /** "Total Years" counts each distinct year once; with no negative amounts
      the month's total never exceeds the year's, and neither exceeds the
      sum of all expenses. */
  lemma {:induction false} SummaryFacts(es: seq<Expense>, now: Moment)
    ensures SummaryOf(es, now).totalYears == |Years(es)|
    ensures (forall k :: 0 <= k < |es| ==> es[k].amount >= 0.0) ==>
      && 0.0 <= SummaryOf(es, now).currentMonthTotal <= SummaryOf(es, now).currentYearTotal
      && SummaryOf(es, now).currentYearTotal <= AmountSum(es)
  {
    if forall k :: 0 <= k < |es| ==> es[k].amount >= 0.0 {
      var year, month := ByYear(es, now.year), ByMonth(es, now.year, now.month);
      MonthWithinYear(es, now.year, now.month);
      assert forall k :: 0 <= k < |year| ==> year[k] in es;
      SubsequenceSumAtMost(year, es);
      SubsequenceSumAtMost(month, year);
      assert forall k :: 0 <= k < |month| ==> month[k] in es;
      NonNegativeSum(month);
    }
  }
}
