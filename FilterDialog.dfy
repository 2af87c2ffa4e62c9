/** The filter dialog of the expense list: three pieces of component state
    (the filter type and the two custom-range date texts), the effect that
    clears the dates whenever the type is not "custom", `applyFilters`, which
    picks the expenses to show and a summary, `clearFilters`, and the rule
    that disables the Apply button. */
module FilterDialog {
  import opened Wrappers
  import opened Text
  import opened Seqs
  import opened Calendar
  import opened JsHost

  /** An expense as the list hands it to the dialog; `date` is the text that
      `new Date(...)` parses. */
  datatype ListedExpense = ListedExpense(id: int, description: string, amount: real, category: string, date: string)

  /** The summary handed to `onFilterChange`. The month name and the custom
      range are rendered by locale formatting, so they are kept as tags. */
  datatype Summary =
    | AllExpenses
    | CustomDatesNotSet
    | MonthOf(year: int, month: int)
    | YearOf(year: int)
    | RangeOf(from: string, to: string)

  /** The fixed summary texts. */
  function SummaryText(s: Summary): (t: Option<string>)
    ensures t.None? <==> s.MonthOf? || s.RangeOf?
  {
    match s
    case AllExpenses => Some("All Expenses")
    case CustomDatesNotSet => Some("All Expenses (Custom dates not set)")
    case YearOf(y) => Some("Year " + IntToDecimal(y))
    case _ => None
  }

  /** A snapshot of the dialog's state. */
  datatype Settings = Settings(filterType: string, fromDate: string, toDate: string)

  /** The chosen expenses and the summary. */
  datatype Applied = Applied(filtered: seq<ListedExpense>, summary: Summary)

  /** `expenseDate >= start && expenseDate <= end`; an Invalid Date compares
      false with anything and is never kept. */
  predicate Within(host: Host, e: ListedExpense, start: Moment, end: Moment) {
    match host.parseDate(e.date)
    case None => false
    case Some(d) => AtOrBefore(start, d) && AtOrBefore(d, end)
  }

  /** The expenses of `expenses` whose date lies in [start, end], in order,
      each as often as it occurs there. */
  function Between(host: Host, expenses: seq<ListedExpense>, start: Moment, end: Moment): (r: seq<ListedExpense>)
    ensures IsSubsequence(r, expenses)
    ensures forall e :: e in r <==> e in expenses && Within(host, e, start, end)
    ensures forall e :: multiset(r)[e] == if Within(host, e, start, end) then multiset(expenses)[e] else 0
  {
    var keep := (e: ListedExpense) => Within(host, e, start, end);
    FilterCount(expenses, keep);
    Filter(expenses, keep)
  }

  /** `applyFilters` for the state `s`, the host's parser and the current time. */
  function ApplyFilters(s: Settings, host: Host, now: Moment, expenses: seq<ListedExpense>): (r: Applied)
    ensures IsSubsequence(r.filtered, expenses)
  {
    SubsequenceReflexive(expenses);
    match s.filterType
    case "all" => Applied(expenses, AllExpenses)
    case "this-month" =>
      var start, end := Midnight(now.year, now.month, 1), LastDayOfMonth(now.year, now.month);
      Applied(Between(host, expenses, start, end), MonthOf(now.year, now.month))
    case "this-year" =>
      var start, end := Midnight(now.year, 0, 1), Midnight(now.year, 11, 31);
      Applied(Between(host, expenses, start, end), YearOf(now.year))
    case "custom" =>
      if s.fromDate != [] && s.toDate != [] then
        var filtered :=
          match (host.parseDate(s.fromDate), host.parseDate(s.toDate))
          case (Some(start), Some(end)) => Between(host, expenses, start, EndOfDay(end))
          case _ => [];
        Applied(filtered, RangeOf(s.fromDate, s.toDate))
      else Applied(expenses, CustomDatesNotSet)
    case _ => Applied(expenses, AllExpenses)
  }

  /** The Apply button's `disabled`: a custom range with a date missing or
      the from date later than the to date. */
  predicate ApplyDisabled(s: Settings, host: Host) {
    && s.filterType == "custom"
    && (|| s.fromDate == [] || s.toDate == []
        || (host.parseDate(s.fromDate).Some? && host.parseDate(s.toDate).Some?
            && Before(host.parseDate(s.toDate).value, host.parseDate(s.fromDate).value)))
  }

  /** The dialog's state, changed by the radio buttons, the date inputs and
      the Clear button. */
  class Dialog {
    var filterType: string
    var fromDate: string
    var toDate: string

    /** The reset effect keeps the dates empty outside the custom type. */
    predicate Valid()
      reads this
    {
      filterType != "custom" ==> fromDate == [] && toDate == []
    }

    /** The state `applyFilters` and the Apply button read. */
    function Current(): Settings
      reads this
    {
      Settings(filterType, fromDate, toDate)
    }

    constructor ()
      ensures filterType == "all" && fromDate == [] && toDate == []
      ensures Valid()
    {
      filterType := "all";
      fromDate := [];
      toDate := [];
    }

    /** A radio button's `setFilterType`, followed by the effect on
        `filterType`: any type but "custom" clears both dates. */
    method SelectFilterType(t: string)
      requires Valid()
      modifies this
      ensures Valid()
      ensures filterType == t
      ensures t != "custom" ==> fromDate == [] && toDate == []
      ensures t == "custom" ==> fromDate == old(fromDate) && toDate == old(toDate)
    {
      filterType := t;
      if filterType != "custom" {
        fromDate := [];
        toDate := [];
      }
    }

    /** The from-date input, shown only for the custom type. */
    method SetFromDate(text: string)
      requires Valid() && filterType == "custom"
      modifies this
      ensures Valid()
      ensures filterType == old(filterType) && fromDate == text && toDate == old(toDate)
    {
      fromDate := text;
    }

    /** The to-date input, shown only for the custom type. */
    method SetToDate(text: string)
      requires Valid() && filterType == "custom"
      modifies this
      ensures Valid()
      ensures filterType == old(filterType) && fromDate == old(fromDate) && toDate == text
    {
      toDate := text;
    }

    /** `clearFilters`: back to "all" with both dates empty, and the whole
        list handed on with "All Expenses". */
    method ClearFilters(expenses: seq<ListedExpense>) returns (r: Applied)
      modifies this
      ensures Valid()
      ensures filterType == "all" && fromDate == [] && toDate == []
      ensures r == Applied(expenses, AllExpenses)
      ensures forall host: Host, now: Moment :: ApplyFilters(Current(), host, now, expenses) == r
    {
      filterType := "all";
      fromDate := [];
      toDate := [];
      r := Applied(expenses, AllExpenses);
    }
  }

  /** "all" and every unknown type hand on the list unchanged with
      "All Expenses"; so does the state right after `clearFilters`. */
  lemma {:induction false} AllKeepsEverything(s: Settings, host: Host, now: Moment, expenses: seq<ListedExpense>)
    requires s.filterType != "this-month" && s.filterType != "this-year" && s.filterType != "custom"
    ensures ApplyFilters(s, host, now, expenses) == Applied(expenses, AllExpenses)
    ensures SummaryText(AllExpenses) == Some("All Expenses")
  {
  }

  /** "this-month" keeps an expense exactly when its date is in the current
      month and no later than midnight starting the month's last day, so an
      expense later on the last day is left out. */
  lemma {:induction false} ThisMonthKeeps(s: Settings, host: Host, now: Moment, expenses: seq<ListedExpense>, e: ListedExpense)
    requires s.filterType == "this-month"
    ensures var r := ApplyFilters(s, host, now, expenses);
      && r.summary == MonthOf(now.year, now.month)
      && (e in r.filtered <==>
            && e in expenses && host.parseDate(e.date).Some?
            && var d := host.parseDate(e.date).value;
               && d.year == now.year && d.month == now.month
               && (d.day < DaysInMonth(now.year, now.month) || (d.day == DaysInMonth(now.year, now.month) && d.ms == 0)))
  {
    var start, end := Midnight(now.year, now.month, 1), LastDayOfMonth(now.year, now.month);
    assert ApplyFilters(s, host, now, expenses).filtered == Between(host, expenses, start, end);
  }

  /** "this-year" keeps an expense exactly when its date is in the current
      year and no later than midnight starting December 31. */
  lemma {:induction false} ThisYearKeeps(s: Settings, host: Host, now: Moment, expenses: seq<ListedExpense>, e: ListedExpense)
    requires s.filterType == "this-year"
    ensures var r := ApplyFilters(s, host, now, expenses);
      && r.summary == YearOf(now.year)
      && SummaryText(r.summary) == Some("Year " + IntToDecimal(now.year))
      && (e in r.filtered <==>
            && e in expenses && host.parseDate(e.date).Some?
            && var d := host.parseDate(e.date).value;
               && d.year == now.year
               && !(d.month == 11 && d.day == 31 && d.ms > 0))
  {
  }

  /** A custom range with both dates keeps an expense exactly when its date
      is at or after the from date and on the to date's calendar day or
      earlier: both ends are inclusive. */
  lemma {:induction false} CustomKeeps(s: Settings, host: Host, now: Moment, expenses: seq<ListedExpense>, e: ListedExpense)
    requires s.filterType == "custom" && s.fromDate != [] && s.toDate != []
    requires host.parseDate(s.fromDate).Some? && host.parseDate(s.toDate).Some?
    ensures var r, from, to := ApplyFilters(s, host, now, expenses), host.parseDate(s.fromDate).value, host.parseDate(s.toDate).value;
      && r.summary == RangeOf(s.fromDate, s.toDate)
      && (e in r.filtered <==>
            && e in expenses && host.parseDate(e.date).Some?
            && AtOrBefore(from, host.parseDate(e.date).value)
            && SameOrEarlierDay(host.parseDate(e.date).value, to))
  {
    if host.parseDate(e.date).Some? {
      AtOrBeforeEndOfDay(host.parseDate(e.date).value, host.parseDate(s.toDate).value);
    }
  }

  /** A custom range whose dates are both set but one of which the host
      cannot parse keeps nothing; one with a date missing keeps everything. */
  lemma {:induction false} CustomEdges(s: Settings, host: Host, now: Moment, expenses: seq<ListedExpense>)
    requires s.filterType == "custom"
    ensures s.fromDate == [] || s.toDate == [] ==>
      ApplyFilters(s, host, now, expenses) == Applied(expenses, CustomDatesNotSet)
    ensures s.fromDate != [] && s.toDate != [] && (host.parseDate(s.fromDate).None? || host.parseDate(s.toDate).None?) ==>
      ApplyFilters(s, host, now, expenses) == Applied([], RangeOf(s.fromDate, s.toDate))
  {
  }

  /** Apply is enabled exactly when the type is not "custom", or both dates
      are set and, when both parse, the from date is not after the to date;
      so it is disabled only for a custom range with a date missing or the
      dates in the wrong order. */
  lemma {:induction false} ApplyEnabled(s: Settings, host: Host)
    ensures s.filterType != "custom" ==> !ApplyDisabled(s, host)
    ensures s.filterType == "custom" ==>
      (!ApplyDisabled(s, host) <==>
        && s.fromDate != [] && s.toDate != []
        && (host.parseDate(s.fromDate).Some? && host.parseDate(s.toDate).Some? ==>
              AtOrBefore(host.parseDate(s.fromDate).value, host.parseDate(s.toDate).value)))
  {
  }

  /** Once Apply is enabled for a custom range whose dates parse, the from
      date's own expenses on that day are kept by `applyFilters`. */
  lemma {:induction false} EnabledRangeKeepsFromDay(s: Settings, host: Host, now: Moment, expenses: seq<ListedExpense>, e: ListedExpense)
    requires s.filterType == "custom" && !ApplyDisabled(s, host)
    requires host.parseDate(s.fromDate).Some? && host.parseDate(s.toDate).Some?
    requires e in expenses && host.parseDate(e.date) == host.parseDate(s.fromDate)
    ensures e in ApplyFilters(s, host, now, expenses).filtered
  {
    CustomKeeps(s, host, now, expenses, e);
  }
}
