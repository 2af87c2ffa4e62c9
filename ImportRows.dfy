/** The import's per-row loop: every data line is tokenized and either
    becomes one expense or one error message, the first failing check
    (column count, description, amount, category, date) deciding the
    message. */
module ImportRows {
  import opened Wrappers
  import opened Seqs
  import opened Text
  import opened Calendar
  import opened JsHost
  import opened Store
  import opened DateText
  import opened ImportHeader
  import Csv

  /** Why a data row was rejected; `raw` is the offending text. */
  datatype Reason =
    | ColumnCountMismatch
    | DescriptionRequired
    | InvalidAmount(raw: string)
    | CategoryRequired
    | DateRequired
    | InvalidDate(raw: string)

  function ReasonText(r: Reason): string {
    match r
    case ColumnCountMismatch => "Column count mismatch"
    case DescriptionRequired => "Description is required"
    case InvalidAmount(raw) => "Invalid amount \"" + raw + "\""
    case CategoryRequired => "Category is required"
    case DateRequired => "Date is required"
    case InvalidDate(raw) => "Invalid date \"" + raw + "\". Use YYYY-MM-DD or MM/DD/YYYY format"
  }

  /** `` `Row ${rowNum}: ...` `` */
  function ErrorMessage(rowNum: nat, r: Reason): string {
    "Row " + NatToDecimal(rowNum) + ": " + ReasonText(r)
  }

  datatype RowResult = Accepted(expense: Record) | Rejected(reason: Reason)

  /** The index `row[name]` is taken from: `headers.forEach` assigns in order,
      so the last header of that name wins. */
  function LastIndex(headers: seq<string>, name: string): (k: nat)
    requires name in headers
    ensures k < |headers| && headers[k] == name
    ensures forall j :: k < j < |headers| ==> headers[j] != name
    decreases |headers|
  {
    if headers[|headers| - 1] == name then |headers| - 1
    else
      assert name in headers[..|headers| - 1] by {
        var i :| 0 <= i < |headers| && headers[i] == name;
        assert headers[..|headers| - 1][i] == name;
      }
      LastIndex(headers[..|headers| - 1], name)
  }

  /** `row[name]`, built as `values[index]?.replace(/['"]/g, '') || ''`: the
      value under that header with quote marks removed, or '' when the line
      has fewer values than headers. */
  function Field(headers: seq<string>, values: seq<string>, name: string): (r: string)
    requires name in headers
    ensures forall c :: c in r ==> !IsQuoteMark(c)
    ensures LastIndex(headers, name) >= |values| ==> r == []
    ensures LastIndex(headers, name) < |values| ==> r == Filter(values[LastIndex(headers, name)], NotQuoteMark)
    ensures LastIndex(headers, name) < |values| && (forall c :: c in values[LastIndex(headers, name)] ==> !IsQuoteMark(c))
      ==> r == values[LastIndex(headers, name)]
  {
    var k := LastIndex(headers, name);
    if k < |values| then StripQuoteMarks(values[k]) else ""
  }

  /** `values.length !== headers.length`. */
  function ColumnCheck(headers: seq<string>, values: seq<string>): Option<Reason> {
    if |values| != |headers| then Some(ColumnCountMismatch) else None
  }

  /** `!row.description?.trim()`. */
  function DescriptionCheck(headers: seq<string>, values: seq<string>): Option<Reason>
    requires HasRequiredColumns(headers)
  {
    if Trim(Field(headers, values, "description")) == [] then Some(DescriptionRequired) else None
  }

  /** `isNaN(amount) || amount <= 0` for `amount = parseFloat(row.amount)`. */
  function AmountCheck(host: Host, headers: seq<string>, values: seq<string>): Option<Reason>
    requires HasRequiredColumns(headers)
  {
    var amountText := Field(headers, values, "amount");
    if host.parseFloat(amountText).None? || host.parseFloat(amountText).value <= 0.0
    then Some(InvalidAmount(amountText)) else None
  }

  /** `!row.category?.trim()`. */
  function CategoryCheck(headers: seq<string>, values: seq<string>): Option<Reason>
    requires HasRequiredColumns(headers)
  {
    if Trim(Field(headers, values, "category")) == [] then Some(CategoryRequired) else None
  }

  /** A missing date, then one `new Date(...)` rejects. */
  function DateCheck(host: Host, headers: seq<string>, values: seq<string>): Option<Reason>
    requires HasRequiredColumns(headers)
  {
    var dateText := Trim(Field(headers, values, "date"));
    if dateText == [] then Some(DateRequired)
    else if host.parseDate(DateQuery(dateText)).None? then Some(InvalidDate(dateText))
    else None
  }

  /** The five checks of a row, each judged on its own: None when it passes,
      the reason it reports when it fails. */
  function Checks(host: Host, headers: seq<string>, values: seq<string>): (cs: seq<Option<Reason>>)
    requires HasRequiredColumns(headers)
    ensures |cs| == 5
  {
    [ ColumnCheck(headers, values), DescriptionCheck(headers, values), AmountCheck(host, headers, values),
      CategoryCheck(headers, values), DateCheck(host, headers, values) ]
  }

  /** What the importer keeps of a row: a non-empty trimmed description and
      category, a positive amount and a valid date. */
  predicate ValidExpense(e: Record) {
    && e.description != [] && IsTrimmed(e.description)
    && e.amount > 0.0
    && e.category != [] && IsTrimmed(e.category)
    && e.date.Some?
  }

  /** The reason of the earliest failing check, or None when all pass. */
  function FirstFailure(cs: seq<Option<Reason>>): (r: Option<Reason>)
    ensures r.None? <==> forall k :: 0 <= k < |cs| ==> cs[k].None?
    ensures r.Some? ==> exists k :: 0 <= k < |cs| && cs[k] == r && forall j :: 0 <= j < k ==> cs[j].None?
    decreases |cs|
  {
    if cs == [] then None
    else if cs[0].Some? then cs[0]
    else
      var r := FirstFailure(cs[1..]);
      assert forall k :: 0 <= k < |cs[1..]| ==> cs[1..][k] == cs[k + 1];
      r
  }

  /** One pass of the loop body over the tokenized values of a data row: the
      chain of checks that each `continue` with an error is a first-failure
      choice over `Checks`, so a row is rejected exactly when one check fails,
      with the reason of the earliest. */
  function CheckRow(host: Host, headers: seq<string>, values: seq<string>): (r: RowResult)
    requires HasRequiredColumns(headers)
    ensures r.Accepted? ==> ValidExpense(r.expense)
    ensures r.Accepted? ==>
      && r.expense.description == Trim(Field(headers, values, "description"))
      && Some(r.expense.amount) == host.parseFloat(Field(headers, values, "amount"))
      && r.expense.category == Trim(Field(headers, values, "category"))
      && r.expense.date == host.parseDate(DateQuery(Trim(Field(headers, values, "date"))))
  {
    match FirstFailure(Checks(host, headers, values))
    case Some(reason) => Rejected(reason)
    case None =>
      ChecksPassed(host, headers, values);
      var description, amount := Trim(Field(headers, values, "description")), Field(headers, values, "amount");
      var category, date := Trim(Field(headers, values, "category")), Trim(Field(headers, values, "date"));
      Accepted(Record(description, host.parseFloat(amount).value, category, host.parseDate(DateQuery(date))))
  }

  /** A row none of whose checks fails passes each check on its own. */
  lemma {:induction false} ChecksPassed(host: Host, headers: seq<string>, values: seq<string>)
    requires HasRequiredColumns(headers)
    requires FirstFailure(Checks(host, headers, values)).None?
    ensures DescriptionCheck(headers, values).None? && AmountCheck(host, headers, values).None?
    ensures CategoryCheck(headers, values).None? && DateCheck(host, headers, values).None?
  {
    var cs := Checks(host, headers, values);
    assert cs[1].None? && cs[2].None? && cs[3].None? && cs[4].None?;
  }

  /** First failure wins: a row is rejected exactly when one of its checks
      fails, and then with the reason of the earliest failing check in the
      order column count, description, amount, category, date; later checks
      are not reported. */
  lemma {:induction false} CheckRowFirstFailure(host: Host, headers: seq<string>, values: seq<string>)
    requires HasRequiredColumns(headers)
    ensures var cs, r := Checks(host, headers, values), CheckRow(host, headers, values);
      && (r.Rejected? <==> exists k :: 0 <= k < 5 && cs[k].Some?)
      && (r.Rejected? ==> exists k :: 0 <= k < 5 && cs[k] == Some(r.reason) && forall j :: 0 <= j < k ==> cs[j].None?)
  {
    var cs := Checks(host, headers, values);
    var f := FirstFailure(cs);
    assert CheckRow(host, headers, values).Rejected? <==> f.Some?;
    assert f.Some? ==> CheckRow(host, headers, values) == Rejected(f.value);
  }

  /** The result of every data row, in order. */
  function RowResults(host: Host, headers: seq<string>, rows: seq<string>): (rs: seq<RowResult>)
    requires HasRequiredColumns(headers)
    ensures |rs| == |rows|
  {
    seq(|rows|, k requires 0 <= k < |rows| => CheckRow(host, headers, Csv.Tokenize(rows[k])))
  }

  /** The expenses the loop collects from row results `rs`, in row order. */
  function AcceptedOf(rs: seq<RowResult>): seq<Record>
    decreases |rs|
  {
    if rs == [] then []
    else
      var before := AcceptedOf(rs[..|rs| - 1]);
      match rs[|rs| - 1]
      case Accepted(e) => before + [e]
      case Rejected(_) => before
  }

  /** The error messages the loop collects from row results `rs`, in row
      order; data row `i` (from 0) is reported as row `i + 2`. */
  function ErrorsOf(rs: seq<RowResult>): seq<string>
    decreases |rs|
  {
    if rs == [] then []
    else
      var before := ErrorsOf(rs[..|rs| - 1]);
      match rs[|rs| - 1]
      case Accepted(_) => before
      case Rejected(reason) => before + [ErrorMessage(|rs| + 1, reason)]
  }

  /** The source's `for` loop over the data rows, pushing into `expenses` or
      `errors` and moving on to the next row after the first failure. */
  method ProcessRows(host: Host, headers: seq<string>, dataRows: seq<string>)
    returns (expenses: seq<Record>, errors: seq<string>)
    requires HasRequiredColumns(headers)
    ensures expenses == AcceptedOf(RowResults(host, headers, dataRows))
    ensures errors == ErrorsOf(RowResults(host, headers, dataRows))
    ensures |expenses| + |errors| == |dataRows|
  {
    ghost var rs := RowResults(host, headers, dataRows);
    expenses, errors := [], [];
    var i := 0;
    while i < |dataRows|
      invariant 0 <= i <= |dataRows|
      invariant expenses == AcceptedOf(rs[..i])
      invariant errors == ErrorsOf(rs[..i])
    {
      var rowNum := i + 2;
      var values := Csv.ParseCsv(dataRows[i]);
      var result := CheckRow(host, headers, values);
      assert result == rs[i];
      CollectStep(rs, i);
      match result {
        case Accepted(e) =>
          expenses := expenses + [e];
        case Rejected(reason) =>
          errors := errors + [ErrorMessage(rowNum, reason)];
      }
      i := i + 1;
    }
    assert rs[..i] == rs;
    RowsPartition(rs);
  }

  /** One more row adds its expense or its error to what was collected. */
  lemma {:induction false} CollectStep(rs: seq<RowResult>, j: nat)
    requires j < |rs|
    ensures match rs[j]
      case Accepted(e) =>
        && AcceptedOf(rs[..j + 1]) == AcceptedOf(rs[..j]) + [e]
        && ErrorsOf(rs[..j + 1]) == ErrorsOf(rs[..j])
      case Rejected(reason) =>
        && AcceptedOf(rs[..j + 1]) == AcceptedOf(rs[..j])
        && ErrorsOf(rs[..j + 1]) == ErrorsOf(rs[..j]) + [ErrorMessage(j + 2, reason)]
  {
    var longer := rs[..j + 1];
    assert longer[..j] == rs[..j];
    assert longer[j] == rs[j];
  }

  /** Every data row contributes exactly one expense or one error. */
  lemma {:induction false} RowsPartition(rs: seq<RowResult>)
    ensures |AcceptedOf(rs)| + |ErrorsOf(rs)| == |rs|
    decreases |rs|
  {
    if rs != [] {
      RowsPartition(rs[..|rs| - 1]);
    }
  }

  /** Every collected expense passed all checks. */
  lemma {:induction false} AcceptedValid(rs: seq<RowResult>)
    requires forall k :: 0 <= k < |rs| && rs[k].Accepted? ==> ValidExpense(rs[k].expense)
    ensures forall k :: 0 <= k < |AcceptedOf(rs)| ==> ValidExpense(AcceptedOf(rs)[k])
    decreases |rs|
  {
    if rs != [] {
      AcceptedValid(rs[..|rs| - 1]);
    }
  }

  /** Every expense the import collects passed all checks. */
  lemma {:induction false} ImportedExpensesValid(host: Host, headers: seq<string>, rows: seq<string>)
    requires HasRequiredColumns(headers)
    ensures var a := AcceptedOf(RowResults(host, headers, rows));
      forall k :: 0 <= k < |a| ==> ValidExpense(a[k])
  {
    AcceptedValid(RowResults(host, headers, rows));
  }

  /** What the loop has collected after the first `j` rows is a prefix of what
      it collects in all. */
  lemma {:induction false} CollectedPrefix(rs: seq<RowResult>, j: nat)
    requires j <= |rs|
    ensures var a := AcceptedOf(rs[..j]);
      |a| <= |AcceptedOf(rs)| && AcceptedOf(rs)[..|a|] == a
    ensures var e := ErrorsOf(rs[..j]);
      |e| <= |ErrorsOf(rs)| && ErrorsOf(rs)[..|e|] == e
    decreases |rs| - j
  {
    if j == |rs| {
      assert rs[..j] == rs;
    } else {
      CollectedPrefix(rs, j + 1);
      CollectStep(rs, j);
      var whole, a0, a1 := AcceptedOf(rs), AcceptedOf(rs[..j]), AcceptedOf(rs[..j + 1]);
      assert a1[..|a0|] == a0;
      assert whole[..|a0|] == whole[..|a1|][..|a0|];
      var ew, e0, e1 := ErrorsOf(rs), ErrorsOf(rs[..j]), ErrorsOf(rs[..j + 1]);
      assert e1[..|e0|] == e0;
      assert ew[..|e0|] == ew[..|e1|][..|e0|];
    }
  }

  /** Both lists keep row order: an accepted data row `j` is the expense at the
      position counting the expenses of the rows before it, and a rejected one
      is the error at the position counting the earlier errors, reported as
      row `j + 2`. */
  lemma {:induction false} RowOutcomeAt(rs: seq<RowResult>, j: nat)
    requires j < |rs|
    ensures match rs[j]
      case Accepted(e) =>
        var p := |AcceptedOf(rs[..j])|;
        p < |AcceptedOf(rs)| && AcceptedOf(rs)[p] == e
      case Rejected(reason) =>
        var p := |ErrorsOf(rs[..j])|;
        p < |ErrorsOf(rs)| && ErrorsOf(rs)[p] == ErrorMessage(j + 2, reason)
  {
    CollectStep(rs, j);
    CollectedPrefix(rs, j + 1);
    match rs[j]
    case Accepted(e) =>
      var whole, a0, a1 := AcceptedOf(rs), AcceptedOf(rs[..j]), AcceptedOf(rs[..j + 1]);
      assert a1 == a0 + [e];
      assert whole[|a0|] == whole[..|a1|][|a0|] == a1[|a0|] == e;
    case Rejected(reason) =>
      var ew, e0, e1 := ErrorsOf(rs), ErrorsOf(rs[..j]), ErrorsOf(rs[..j + 1]);
      assert e1 == e0 + [ErrorMessage(j + 2, reason)];
      assert ew[|e0|] == ew[..|e1|][|e0|] == e1[|e0|];
  }
}
