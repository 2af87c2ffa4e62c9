/** The pie chart's data: per-category totals built by a reduce that updates
    a dictionary in place, their grand total, the five largest totals in
    non-increasing order, a colour per slice, and the two "No data" guards
    (no expenses, or a zero total). The slice geometry is not part of this
    model. */
module PieChart {
  import opened Seqs
  import opened Expenses

  /** The sum of the amounts of the expenses of category `c`, added from the
      first to the last. */
  function CategorySum(es: seq<Expense>, c: string): real
    decreases |es|
  {
    if es == [] then 0.0
    else CategorySum(es[..|es| - 1], c) + (if es[|es| - 1].category == c then es[|es| - 1].amount else 0.0)
  }

  /** The condition `e.category === c` as a filter. */
  function InCategory(c: string): Expense -> bool {
    (e: Expense) => e.category == c
  }

  /** A category's sum is the sum of the amounts of the expenses kept by
      filtering on that category. */
  lemma {:induction false} CategorySumIsFilteredSum(es: seq<Expense>, c: string)
    ensures CategorySum(es, c) == AmountSum(Filter(es, InCategory(c)))
    decreases |es|
  {
    if es != [] {
      var init, x := es[..|es| - 1], es[|es| - 1];
      CategorySumIsFilteredSum(init, c);
      assert es == init + [x];
      FilteredSumSnoc(init, x, c);
    }
  }

  /** One more expense adds its amount to the filtered sum of its own
      category only. */
  lemma {:induction false} FilteredSumSnoc(init: seq<Expense>, x: Expense, c: string)
    ensures AmountSum(Filter(init + [x], InCategory(c)))
         == AmountSum(Filter(init, InCategory(c))) + (if x.category == c then x.amount else 0.0)
  {
    var last := if x.category == c then [x] else [];
    FilterSnoc(init, x, InCategory(c));
    AmountSumAppend(Filter(init, InCategory(c)), last);
    assert AmountSum(last) == if x.category == c then x.amount else 0.0 by {
      assert [x][..0] == [];
    }
  }

  predicate Distinct<T(==)>(s: seq<T>) {
    forall i, j :: 0 <= i < j < |s| ==> s[i] != s[j]
  }

  /** The categories of `es`, each once, in order of first occurrence: the
      key order of the dictionary the reduce builds. */
  function Categories(es: seq<Expense>): (r: seq<string>)
    ensures Distinct(r)
    decreases |es|
  {
    if es == [] then []
    else
      var before := Categories(es[..|es| - 1]);
      var c := es[|es| - 1].category;
      if c in before then before else before + [c]
  }

  /** A category is listed exactly when some expense has it. */
  lemma {:induction false} CategoriesMembership(es: seq<Expense>, c: string)
    ensures c in Categories(es) <==> exists k :: 0 <= k < |es| && es[k].category == c
    decreases |es|
  {
    if es != [] {
      var init := es[..|es| - 1];
      CategoriesMembership(init, c);
      if exists k :: 0 <= k < |init| && init[k].category == c {
        var k :| 0 <= k < |init| && init[k].category == c;
        assert es[k].category == c;
      }
      if exists k :: 0 <= k < |es| && es[k].category == c {
        var k :| 0 <= k < |es| && es[k].category == c;
        if k < |init| {
          assert init[k].category == c;
        }
      }
    }
  }

  lemma {:induction false} CategoriesSnoc(es: seq<Expense>, i: nat)
    requires i < |es|
    ensures Categories(es[..i + 1])
         == if es[i].category in Categories(es[..i]) then Categories(es[..i]) else Categories(es[..i]) + [es[i].category]
  {
    assert es[..i + 1][..i] == es[..i];
  }

  lemma {:induction false} CategorySumSnoc(es: seq<Expense>, x: Expense, c: string)
    ensures CategorySum(es + [x], c) == CategorySum(es, c) + (if x.category == c then x.amount else 0.0)
  {
    assert (es + [x])[..|es|] == es;
  }

  /** A category no expense has sums to zero. */
  lemma {:induction false} CategorySumAbsent(es: seq<Expense>, c: string)
    requires c !in Categories(es)
    ensures CategorySum(es, c) == 0.0
    decreases |es|
  {
    if es != [] {
      CategorySumAbsent(es[..|es| - 1], c);
    }
  }

  /** The dictionary `totals` with its key order `order` holds, for the
      expenses `seen`, each category once with its sum. */
  ghost predicate Tallied(totals: map<string, real>, order: seq<string>, seen: seq<Expense>) {
    && order == Categories(seen)
    && (forall c :: c in totals <==> c in order)
    && (forall c :: c in totals ==> totals[c] == CategorySum(seen, c))
  }

  /** `acc[category] = (acc[category] || 0) + expense.amount`. */
  function AddTo(totals: map<string, real>, e: Expense): map<string, real> {
    totals[e.category := (if e.category in totals then totals[e.category] else 0.0) + e.amount]
  }

  /** The key order after that assignment: a new key goes last. */
  function KeyAdded(order: seq<string>, e: Expense): seq<string> {
    if e.category in order then order else order + [e.category]
  }

  /** `expenses.reduce((acc, expense) => { acc[category] = (acc[category] || 0)
      + expense.amount; return acc }, {})`, with the dictionary's key order
      kept beside it. */
  method CategoryTotals(es: seq<Expense>) returns (totals: map<string, real>, order: seq<string>)
    ensures order == Categories(es)
    ensures forall c :: c in totals <==> c in order
    ensures forall c :: c in totals ==> totals[c] == CategorySum(es, c)
  {
    totals, order := map[], [];
    var i := 0;
    assert es[..0] == [];
    while i < |es|
      invariant 0 <= i <= |es|
      invariant Tallied(totals, order, es[..i])
    {
      var e := es[i];
      TotalsStep(es, i, totals, order);
      ghost var nextTotals, nextOrder := AddTo(totals, e), KeyAdded(order, e);
      var previous := if e.category in totals then totals[e.category] else 0.0;
      totals := totals[e.category := previous + e.amount];
      if e.category !in order {
        order := order + [e.category];
      }
      assert totals == nextTotals && order == nextOrder;
      i := i + 1;
    }
    assert es[..i] == es;
  }

  /** One pass of the reduce keeps the dictionary equal to the category sums
      of the expenses seen so far. */
  lemma {:induction false} TotalsStep(es: seq<Expense>, i: nat, totals: map<string, real>, order: seq<string>)
    requires i < |es|
    requires Tallied(totals, order, es[..i])
    ensures Tallied(AddTo(totals, es[i]), KeyAdded(order, es[i]), es[..i + 1])
  {
    var e, seen := es[i], es[..i];
    var t := AddTo(totals, e);
    assert KeyAdded(order, e) == Categories(es[..i + 1]) by {
      CategoriesSnoc(es, i);
    }
    assert es[..i + 1] == seen + [e];
    forall c | c in t
      ensures t[c] == CategorySum(es[..i + 1], c)
    {
      CategorySumSnoc(seen, e, c);
      if c == e.category && c !in totals {
        CategorySumAbsent(seen, c);
      }
    }
  }

  /** The sum of the category totals of `cats`, added in that order. */
  function SumOfCategories(es: seq<Expense>, cats: seq<string>): real
    decreases |cats|
  {
    if cats == [] then 0.0 else SumOfCategories(es, cats[..|cats| - 1]) + CategorySum(es, cats[|cats| - 1])
  }

  /** `Object.values(categoryTotals).reduce((sum, amount) => sum + amount, 0)`. */
  function TotalAmount(totals: map<string, real>, order: seq<string>): real
    requires forall c :: c in order ==> c in totals
    decreases |order|
  {
    if order == [] then 0.0 else TotalAmount(totals, order[..|order| - 1]) + totals[order[|order| - 1]]
  }

  lemma {:induction false} TotalAmountIsSumOfCategories(es: seq<Expense>, totals: map<string, real>, order: seq<string>)
    requires forall c :: c in order ==> c in totals && totals[c] == CategorySum(es, c)
    ensures TotalAmount(totals, order) == SumOfCategories(es, order)
    decreases |order|
  {
    if order != [] {
      TotalAmountIsSumOfCategories(es, totals, order[..|order| - 1]);
    }
  }

  /** One more expense adds its amount to the total of the categories that
      hold its category once. */
  lemma {:induction false} SumOfCategoriesSnoc(es: seq<Expense>, x: Expense, cats: seq<string>)
    requires Distinct(cats)
    ensures SumOfCategories(es + [x], cats)
         == SumOfCategories(es, cats) + (if x.category in cats then x.amount else 0.0)
    decreases |cats|
  {
    if cats != [] {
      var init := cats[..|cats| - 1];
      var last := cats[|cats| - 1];
      assert forall c :: c in init ==> c in cats;
      assert x.category in cats <==> x.category in init || x.category == last;
      assert last !in init;
      SumOfCategoriesSnoc(es, x, init);
      CategorySumSnoc(es, x, last);
    }
  }

  /** The sum of the category totals is the sum of all amounts. */
  lemma {:induction false} CategoryTotalsSum(es: seq<Expense>)
    ensures SumOfCategories(es, Categories(es)) == AmountSum(es)
    decreases |es|
  {
    if es != [] {
      var init := es[..|es| - 1];
      var x := es[|es| - 1];
      assert es == init + [x];
      CategoryTotalsSum(init);
      var cats := Categories(init);
      SumOfCategoriesSnoc(init, x, cats);
      AmountSumAppend(init, [x]);
      assert AmountSum([x]) == x.amount by {
        assert [x][..0] == [];
      }
      if x.category !in cats {
        CategorySumAbsent(init, x.category);
        CategorySumSnoc(init, x, x.category);
        assert (cats + [x.category])[..|cats|] == cats;
      }
    }
  }

  /** One entry of `Object.entries(categoryTotals)`. */
  datatype Entry = Entry(category: string, amount: real)

  /** `Object.entries`: the entries in key order. */
  function Entries(totals: map<string, real>, order: seq<string>): (r: seq<Entry>)
    requires forall c :: c in order ==> c in totals
    ensures |r| == |order|
    ensures forall k :: 0 <= k < |r| ==> r[k] == Entry(order[k], totals[order[k]])
  {
    seq(|order|, k requires 0 <= k < |order| => Entry(order[k], totals[order[k]]))
  }

  predicate SortedDesc(s: seq<Entry>) {
    forall i, j :: 0 <= i < j < |s| ==> s[i].amount >= s[j].amount
  }

  /** Inserting `x` into a non-increasing sequence. */
  function Insert(x: Entry, s: seq<Entry>): (r: seq<Entry>)
    requires SortedDesc(s)
    ensures SortedDesc(r)
    ensures |r| == |s| + 1
    ensures r[0] == x || (s != [] && r[0] == s[0])
    decreases |s|
  {
    if s == [] then [x]
    else if x.amount >= s[0].amount then [x] + s
    else
      var rest := Insert(x, s[1..]);
      assert s[0].amount >= rest[0].amount;
      assert forall k :: 0 <= k < |rest| ==> rest[0].amount >= rest[k].amount;
      [s[0]] + rest
  }

  /** Inserting adds `x` and loses nothing. */
  lemma {:induction false} InsertPermutes(x: Entry, s: seq<Entry>)
    requires SortedDesc(s)
    ensures multiset(Insert(x, s)) == multiset(s) + multiset{x}
    decreases |s|
  {
    if s != [] && x.amount < s[0].amount {
      InsertPermutes(x, s[1..]);
      assert s == [s[0]] + s[1..];
    }
  }

  /** `.sort(([, a], [, b]) => b - a)`: a non-increasing permutation. The
      order among equal totals is not modelled. */
  function SortDesc(s: seq<Entry>): (r: seq<Entry>)
    ensures SortedDesc(r)
    ensures |r| == |s|
    decreases |s|
  {
    if s == [] then [] else Insert(s[0], SortDesc(s[1..]))
  }

  /** Sorting keeps every entry, each as often as it occurs. */
  lemma {:induction false} SortDescPermutes(s: seq<Entry>)
    ensures multiset(SortDesc(s)) == multiset(s)
    decreases |s|
  {
    if s != [] {
      var x, t := s[0], s[1..];
      SortDescPermutes(t);
      InsertPermutes(x, SortDesc(t));
      assert SortDesc(s) == Insert(x, SortDesc(t));
      assert s == [x] + t;
      assert multiset(s) == multiset{x} + multiset(t);
    }
  }

  const Colors: seq<string> := [
    "#3B82F6", "#EF4444", "#10B981", "#F59E0B", "#8B5CF6",
    "#EC4899", "#14B8A6", "#F97316", "#6366F1", "#84CC16"
  ]

  /** `colors[index % colors.length]`: any ten consecutive slices get ten
      different colours. */
  function ColorOf(index: nat): (c: string)
    ensures c in Colors
    ensures index < |Colors| ==> c == Colors[index]
  {
    assert |Colors| == 10;
    Colors[index % 10]
  }

  /** One drawn slice. */
  datatype Slice = Slice(category: string, amount: real, color: string)

  /** What the component renders. */
  datatype PieView = NoExpensesPlaceholder | ZeroTotalPlaceholder | Chart(slices: seq<Slice>)

  /** `.slice(0, 5)`. */
  function TopFive(sorted: seq<Entry>): (r: seq<Entry>)
    ensures |r| == if |sorted| < 5 then |sorted| else 5
    ensures forall i :: 0 <= i < |r| ==> r[i] == sorted[i]
  {
    sorted[..if |sorted| < 5 then |sorted| else 5]
  }

  /** `.map(([category, amount], index) => ({ ..., color: colors[index % colors.length] }))`. */
  function Colored(top: seq<Entry>): (r: seq<Slice>)
    ensures |r| == |top|
    ensures forall i :: 0 <= i < |r| ==> r[i] == Slice(top[i].category, top[i].amount, ColorOf(i))
  {
    seq(|top|, i requires 0 <= i < |top| => Slice(top[i].category, top[i].amount, ColorOf(i)))
  }

  /** The ten colours are pairwise different. */
  lemma {:induction false} ColorsDistinct()
    ensures forall i, j :: 0 <= i < j < |Colors| ==> Colors[i] != Colors[j]
  {
    forall i, j | 0 <= i < j < |Colors|
      ensures Colors[i] != Colors[j]
    {
      assert Colors[i][1] != Colors[j][1] || Colors[i][2] != Colors[j][2];
    }
  }

  /** Some entry of `t` has category `c`. */
  predicate Picked(t: seq<Entry>, c: string) {
    exists i :: 0 <= i < |t| && t[i].category == c
  }

  /** Some slice of `s` has category `c`. */
  predicate Drawn(s: seq<Slice>, c: string) {
    exists i :: 0 <= i < |s| && s[i].category == c
  }

  /** Up to ten slices get `colors[i]`, no colour twice. */
  lemma {:induction false} ColoredFacts(top: seq<Entry>)
    requires |top| <= |Colors|
    ensures var r := Colored(top);
      && (forall i :: 0 <= i < |r| ==> r[i].color == Colors[i])
      && (forall i, j :: 0 <= i < j < |r| ==> r[i].color != r[j].color)
  {
    ColorsDistinct();
  }

  /** The first five of a non-increasing permutation of `entries` are
      entries, in non-increasing order, and an entry left out has a total no
      larger than any of them. */
  lemma {:induction false} TopFiveFacts(entries: seq<Entry>, sorted: seq<Entry>)
    requires SortedDesc(sorted) && multiset(sorted) == multiset(entries)
    ensures var t := TopFive(sorted);
      && |t| == (if |entries| < 5 then |entries| else 5)
      && SortedDesc(t)
      && (forall i :: 0 <= i < |t| ==> t[i] in entries)
      && (forall e, i :: e in entries && !Picked(t, e.category) && 0 <= i < |t| ==> e.amount <= t[i].amount)
  {
    var t := TopFive(sorted);
    assert |sorted| == |multiset(sorted)| == |multiset(entries)| == |entries|;
    forall i | 0 <= i < |t|
      ensures t[i] in entries
    {
      assert sorted[i] in multiset(sorted);
    }
    forall e, i | e in entries && !Picked(t, e.category) && 0 <= i < |t|
      ensures e.amount <= t[i].amount
    {
      assert e in multiset(sorted);
      var p :| 0 <= p < |sorted| && sorted[p] == e;
    }
  }

  /** No two entries share a category. */
  predicate DistinctCategories(s: seq<Entry>) {
    forall i, j :: 0 <= i < j < |s| ==> s[i].category != s[j].category
  }

  /** Entries with distinct categories hold each entry at most once. */
  lemma {:induction false} CountedAtMostOnce(s: seq<Entry>, x: Entry)
    requires DistinctCategories(s)
    ensures multiset(s)[x] <= 1
    decreases |s|
  {
    if s != [] {
      var init, last := s[..|s| - 1], s[|s| - 1];
      assert s == init + [last];
      CountedAtMostOnce(init, x);
      if last == x {
        assert x !in init by {
          forall k | 0 <= k < |init| ensures init[k] != x {
            assert s[k].category != s[|s| - 1].category;
          }
        }
      }
    }
  }

  /** An entry found at two positions is counted at least twice. */
  lemma {:induction false} CountedTwice(s: seq<Entry>, i: nat, j: nat)
    requires i < j < |s| && s[i] == s[j]
    ensures multiset(s)[s[i]] >= 2
  {
    var front := s[..j];
    assert s == front + [s[j]] + s[j + 1..];
    assert front[i] == s[i];
    assert s[i] in multiset(front);
  }

  /** Reordering entries keeps their categories distinct. */
  lemma {:induction false} PermutedCategoriesDistinct(entries: seq<Entry>, sorted: seq<Entry>)
    requires DistinctCategories(entries) && multiset(sorted) == multiset(entries)
    ensures DistinctCategories(sorted)
  {
    forall i, j | 0 <= i < j < |sorted|
      ensures sorted[i].category != sorted[j].category
    {
      if sorted[i].category == sorted[j].category {
        assert sorted[i] in multiset(entries) && sorted[j] in multiset(entries);
        var p :| 0 <= p < |entries| && entries[p] == sorted[i];
        var q :| 0 <= q < |entries| && entries[q] == sorted[j];
        assert p == q;
        CountedTwice(sorted, i, j);
        CountedAtMostOnce(entries, sorted[i]);
        assert false;
      }
    }
  }

  /** What the chart shows for `es`: at most five slices, one per category,
      largest totals first, each with its category's sum and a colour of its
      own; a category left out sums to no more than any slice. */
  ghost predicate ChartOf(es: seq<Expense>, s: seq<Slice>) {
    && |s| == (if |Categories(es)| < 5 then |Categories(es)| else 5)
    && (forall i, j :: 0 <= i < j < |s| ==>
          && s[i].amount >= s[j].amount
          && s[i].color != s[j].color
          && s[i].category != s[j].category)
    && (forall i :: 0 <= i < |s| ==>
          && s[i].category in Categories(es)
          && s[i].amount == CategorySum(es, s[i].category)
          && s[i].color == Colors[i])
    && (forall c, i :: c in Categories(es) && !Drawn(s, c) && 0 <= i < |s| ==> CategorySum(es, c) <= s[i].amount)
  }

  /** The first five of the sorted entries of `es`'s category totals, coloured,
      are what the chart shows. */
  lemma {:induction false} ChartFacts(es: seq<Expense>, entries: seq<Entry>, sorted: seq<Entry>)
    requires |entries| == |Categories(es)|
    requires forall k :: 0 <= k < |entries| ==> entries[k] == Entry(Categories(es)[k], CategorySum(es, Categories(es)[k]))
    requires SortedDesc(sorted) && multiset(sorted) == multiset(entries)
    ensures ChartOf(es, Colored(TopFive(sorted)))
  {
    var order := Categories(es);
    var top := TopFive(sorted);
    TopFiveFacts(entries, sorted);
    ColoredFacts(top);
    var slices := Colored(top);
    assert DistinctCategories(entries) by {
      forall i, j | 0 <= i < j < |entries|
        ensures entries[i].category != entries[j].category
      {
        assert order[i] != order[j];
      }
    }
    PermutedCategoriesDistinct(entries, sorted);
    forall i | 0 <= i < |slices|
      ensures slices[i].category in order && slices[i].amount == CategorySum(es, slices[i].category)
    {
      assert top[i] in entries;
      var k :| 0 <= k < |entries| && entries[k] == top[i];
    }
    forall c, i | c in order && !Drawn(slices, c) && 0 <= i < |slices|
      ensures CategorySum(es, c) <= slices[i].amount
    {
      var k :| 0 <= k < |order| && order[k] == c;
      assert entries[k] == Entry(c, CategorySum(es, c));
    }
  }

  /** The component for a list of expenses: the "No data" placeholder for no
      expenses and for a zero total, otherwise at most five slices, one per
      category, largest totals first, each carrying its category's sum and a
      colour of its own; every category left out sums to no more than any
      slice. */
  method Render(es: seq<Expense>) returns (view: PieView)
    ensures view.NoExpensesPlaceholder? <==> es == []
    ensures view.ZeroTotalPlaceholder? <==> es != [] && AmountSum(es) == 0.0
    ensures view.Chart? ==> 1 <= |view.slices| <= 5 && ChartOf(es, view.slices)
  {
    if |es| == 0 {
      return NoExpensesPlaceholder;
    }
    var totals, order := CategoryTotals(es);
    var total := TotalAmount(totals, order);
    TotalAmountIsSumOfCategories(es, totals, order);
    CategoryTotalsSum(es);
    if total == 0.0 {
      return ZeroTotalPlaceholder;
    }
    var entries := Entries(totals, order);
    var sorted := SortDesc(entries);
    SortDescPermutes(entries);
    CategoriesMembership(es, es[0].category);
    ChartFacts(es, entries, sorted);
    view := Chart(Colored(TopFive(sorted)));
  }
}
