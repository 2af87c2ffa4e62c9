/** The CSV import page: the `action` that checks the upload, splits the text
    into non-blank lines, validates the header, runs the row loop and applies
    the partial-success policy (valid rows are inserted in one batch even when
    other rows fail), and the page's `previewFile`, which shapes the first
    five data rows with the same tokenizer and header rules. */
module ImportSheet {
  import opened Wrappers
  import opened Text
  import opened Seqs
  import opened JsHost
  import opened Store
  import opened ImportHeader
  import opened ImportRows
  import Csv
  import DateText

  const AllowedTypes: seq<string> := [
    "text/csv",
    "application/vnd.ms-excel",
    "application/vnd.openxmlformats-officedocument.spreadsheetml.sheet"
  ]

  /** The `file` entry of the submitted form: its declared media type, its
      name and its content. */
  datatype Upload = Upload(mediaType: string, name: string, text: string)

  /** The allow-list check: a listed media type, or a name ending in `.csv`. */
  predicate IsAllowedUpload(f: Upload) {
    f.mediaType in AllowedTypes || EndsWith(f.name, ".csv")
  }

  /** `text.split('\n').filter(line => line.trim())`. */
  function Lines(text: string): seq<string> {
    Filter(Split(text, '\n'), line => Trim(line) != [])
  }

  /** The lines kept are the non-blank pieces between newlines, in order. */
  lemma {:induction false} LinesNonBlank(text: string)
    ensures var r := Lines(text);
      && (forall k :: 0 <= k < |r| ==> Trim(r[k]) != [] && '\n' !in r[k])
      && IsSubsequence(r, Split(text, '\n'))
      && (forall l :: l in Split(text, '\n') && Trim(l) != [] ==> l in r)
      && forall l :: multiset(r)[l] == if Trim(l) != [] then multiset(Split(text, '\n'))[l] else 0
  {
    FilterCount(Split(text, '\n'), line => Trim(line) != []);
    var parts := Split(text, '\n');
    var r := Lines(text);
    assert forall k :: 0 <= k < |r| ==> r[k] in parts;
  }

  /** The body of the JSON reply. */
  datatype ActionData =
    | Failure(error: string, errors: Option<seq<string>>)
    | Success(imported: nat, errors: Option<seq<string>>)

  datatype Reply = Reply(status: nat, data: ActionData)

  /** A reply, and the batch handed to `createMany` (None when it is not called). */
  datatype Outcome = Outcome(reply: Reply, batch: Option<seq<Record>>)

  const TooFewLinesError := "File must contain at least a header row and one data row"
  const NoValidExpensesError := "No valid expenses found"

  function Fail(error: string): Outcome {
    Outcome(Reply(200, Failure(error, None)), None)
  }

  /** The partial-success policy applied to the results of the data rows:
      no valid row and some error is a failure carrying every error, with no
      insert; otherwise the valid rows form the one batch to insert, and
      `errors` is present only when some row failed. As there is at least one
      data row, a success always imports at least one expense. */
  function Settle(rs: seq<RowResult>): (o: Outcome)
    requires |rs| >= 1
    ensures o.reply.status == 200
    ensures o.reply.data.Success? <==> o.batch.Some?
    ensures o.batch.Some? ==> o.batch.value == AcceptedOf(rs) && o.reply.data.imported == |o.batch.value| >= 1
    ensures o.reply.data.Success? ==> o.reply.data.errors == (if ErrorsOf(rs) == [] then None else Some(ErrorsOf(rs)))
    ensures o.reply.data.Failure? ==> AcceptedOf(rs) == [] && o.reply.data == Failure(NoValidExpensesError, Some(ErrorsOf(rs)))
  {
    var expenses, errors := AcceptedOf(rs), ErrorsOf(rs);
    if |errors| > 0 && |expenses| == 0 then
      Outcome(Reply(200, Failure(NoValidExpensesError, Some(errors))), None)
    else
      RowsPartition(rs);
      Outcome(Reply(200, Success(|expenses|, if |errors| > 0 then Some(errors) else None)),
              if |expenses| > 0 then Some(expenses) else None)
  }

  /** What the action does with the text of an accepted upload. */
  function ImportText(host: Host, text: string): (o: Outcome)
    ensures o.reply.status == 200
    ensures |Lines(text)| < 2 ==> o == Fail(TooFewLinesError)
    ensures o.reply.data.Success? <==> o.batch.Some?
  {
    var lines := Lines(text);
    if |lines| < 2 then Fail(TooFewLinesError)
    else
      var headers := Headers(lines[0]);
      var missing := MissingColumns(headers);
      if |missing| > 0 then Fail(MissingColumnsError(missing))
      else Settle(RowResults(host, headers, lines[1..]))
  }

  /** Every expense an import inserts passed all row checks, and a success
      imports at least one. */
  lemma {:induction false} ImportedBatchValid(host: Host, text: string)
    ensures var o := ImportText(host, text);
      o.batch.Some? ==>
        && o.reply.data.imported == |o.batch.value| >= 1
        && forall k :: 0 <= k < |o.batch.value| ==> ValidExpense(o.batch.value[k])
  {
    var lines := Lines(text);
    if |lines| >= 2 && MissingColumns(Headers(lines[0])) == [] {
      var headers := Headers(lines[0]);
      var rs := RowResults(host, headers, lines[1..]);
      ImportTextSettles(host, text, lines, headers);
      ImportedExpensesValid(host, headers, lines[1..]);
      SettledBatchValid(rs);
    }
  }

  lemma {:induction false} SettledBatchValid(rs: seq<RowResult>)
    requires |rs| >= 1
    requires forall k :: 0 <= k < |AcceptedOf(rs)| ==> ValidExpense(AcceptedOf(rs)[k])
    ensures var o := Settle(rs);
      o.batch.Some? ==> forall k :: 0 <= k < |o.batch.value| ==> ValidExpense(o.batch.value[k])
  {
  }

  /** Past the line-count and header checks, the import is the policy applied
      to the data rows' results. */
  lemma {:induction false} ImportTextSettles(host: Host, text: string, lines: seq<string>, headers: seq<string>)
    requires lines == Lines(text) && |lines| >= 2
    requires headers == Headers(lines[0]) && MissingColumns(headers) == []
    ensures ImportText(host, text) == Settle(RowResults(host, headers, lines[1..]))
  {
  }

  /** The whole action: method check, file presence, allow-list, then the import. */
  function HandleAction(host: Host, httpMethod: string, file: Option<Upload>): Outcome {
    if httpMethod != "POST" then Outcome(Reply(405, Failure("Method not allowed", None)), None)
    else if file.None? then Fail("Please select a file to import")
    else if !IsAllowedUpload(file.value) then Fail("Please upload a CSV or Excel file")
    else ImportText(host, file.value.text)
  }

  /** The guards before the import: any method but POST is answered 405, a
      missing file and a file outside the allow-list get their own messages,
      and none of them inserts anything; an accepted file is imported.
      Hence a batch is only ever inserted for a POST of an allowed file. */
  lemma {:induction false} ActionGuards(host: Host, httpMethod: string, file: Option<Upload>)
    ensures var o := HandleAction(host, httpMethod, file);
      && (httpMethod != "POST" ==> o == Outcome(Reply(405, Failure("Method not allowed", None)), None))
      && (httpMethod == "POST" && file.None? ==> o == Fail("Please select a file to import"))
      && (httpMethod == "POST" && file.Some? && !IsAllowedUpload(file.value) ==>
            o == Fail("Please upload a CSV or Excel file"))
      && (httpMethod == "POST" && file.Some? && IsAllowedUpload(file.value) ==> o == ImportText(host, file.value.text))
      && (o.batch.Some? ==> httpMethod == "POST" && file.Some? && IsAllowedUpload(file.value))
  {
  }

  /** The allow-list accepts a listed media type whatever the name, and any
      name ending in `.csv` whatever the type; a name such as `data.xlsx`
      with an unlisted type is refused. */
  lemma {:induction false} AllowList(mediaType: string, name: string, text: string)
    ensures mediaType in AllowedTypes ==> IsAllowedUpload(Upload(mediaType, name, text))
    ensures IsAllowedUpload(Upload(mediaType, name + ".csv", text))
    ensures !IsAllowedUpload(Upload("application/octet-stream", "data.xlsx", text))
  {
    assert (name + ".csv")[|name + ".csv"| - 4..] == ".csv";
  }

  /** The import's outcome rules, once the text has a header and a data row
      and the header holds every required column: with no valid row and some
      error the reply is "No valid expenses found" with every error and
      nothing is inserted; otherwise exactly the valid rows are inserted in
      one batch, `imported` counts them, and `errors` is present exactly when
      some row failed. Either way each data row is counted once. */
  lemma {:induction false} ImportOutcomeRules(host: Host, text: string)
    requires |Lines(text)| >= 2
    requires MissingColumns(Headers(Lines(text)[0])) == []
    ensures var lines := Lines(text);
      var rs := RowResults(host, Headers(lines[0]), lines[1..]);
      var expenses, errors, o := AcceptedOf(rs), ErrorsOf(rs), ImportText(host, text);
      && |expenses| + |errors| == |lines| - 1
      && (expenses == [] ==> errors != [] && o == Outcome(Reply(200, Failure(NoValidExpensesError, Some(errors))), None))
      && (expenses != [] ==>
            && o.batch == Some(expenses)
            && o.reply == Reply(200, Success(|expenses|, if errors == [] then None else Some(errors))))
  {
    var lines := Lines(text);
    RowsPartition(RowResults(host, Headers(lines[0]), lines[1..]));
  }

  /** A header without every required column ends the import before any row
      is looked at: the reply names exactly the missing columns and nothing is
      inserted. */
  lemma {:induction false} MissingColumnsAbort(host: Host, text: string)
    requires |Lines(text)| >= 2
    requires MissingColumns(Headers(Lines(text)[0])) != []
    ensures var missing := MissingColumns(Headers(Lines(text)[0]));
      && ImportText(host, text) == Fail(MissingColumnsError(missing))
      && forall c :: c in missing <==> c in RequiredColumns && c !in Headers(Lines(text)[0])
  {
  }

  /** The route's `action`, step by step: it answers the reply `HandleAction`
      gives, and the store receives one `createMany` call with the batch when
      there is one, and nothing otherwise. */
  method Action(host: Host, store: ExpenseStore, httpMethod: string, file: Option<Upload>)
    returns (reply: Reply)
    modifies store
    ensures reply == HandleAction(host, httpMethod, file).reply
    ensures var batch := HandleAction(host, httpMethod, file).batch;
      store.inserts == old(store.inserts) + (if batch.Some? then [batch.value] else [])
  {
    if httpMethod != "POST" {
      return Reply(405, Failure("Method not allowed", None));
    }
    if file.None? {
      return Reply(200, Failure("Please select a file to import", None));
    }
    var f := file.value;
    if !(f.mediaType in AllowedTypes) && !EndsWith(f.name, ".csv") {
      return Reply(200, Failure("Please upload a CSV or Excel file", None));
    }
    var lines := Lines(f.text);
    if |lines| < 2 {
      return Reply(200, Failure(TooFewLinesError, None));
    }
    var headers := Headers(lines[0]);
    var missing := MissingColumns(headers);
    if |missing| > 0 {
      return Reply(200, Failure(MissingColumnsError(missing), None));
    }
    var expenses, errors := ProcessRows(host, headers, lines[1..]);
    if |errors| > 0 && |expenses| == 0 {
      return Reply(200, Failure(NoValidExpensesError, Some(errors)));
    }
    if |expenses| > 0 {
      store.CreateMany(expenses);
    }
    reply := Reply(200, Success(|expenses|, if |errors| > 0 then Some(errors) else None));
  }

  /** One row of the preview table; a missing value shows as "N/A". */
  datatype PreviewRow = PreviewRow(description: string, amount: string, category: string, date: string)

  function OrNA(s: string): (r: string)
    ensures r != []
    ensures s != [] ==> r == s
    ensures IsTrimmed(s) ==> IsTrimmed(r)
  {
    if s == [] then "N/A" else s
  }

  /** How the preview shows a data row: trimmed description, category and date,
      the amount as written, "N/A" for anything empty or missing. */
  function PreviewOfRow(headers: seq<string>, values: seq<string>): (p: PreviewRow)
    requires HasRequiredColumns(headers)
    ensures p.description != [] && p.amount != [] && p.category != [] && p.date != []
    ensures IsTrimmed(p.description) && IsTrimmed(p.category) && IsTrimmed(p.date)
    ensures var d := Trim(Field(headers, values, "description")); p.description == if d == [] then "N/A" else d
    ensures var a := Field(headers, values, "amount"); p.amount == if a == [] then "N/A" else a
    ensures var c := Trim(Field(headers, values, "category")); p.category == if c == [] then "N/A" else c
    ensures var t := Trim(Field(headers, values, "date")); p.date == if t == [] then "N/A" else t
  {
    var description, category, date :=
      Trim(Field(headers, values, "description")), Trim(Field(headers, values, "category")), Trim(Field(headers, values, "date"));
    PreviewRow(OrNA(description), OrNA(Field(headers, values, "amount")), OrNA(category), OrNA(date))
  }

  /** The preview shows a row the import accepts as the import stores it:
      the same description and category, the date text the stored date was
      read from, and (unless the amount cell is empty, which `parseFloat`
      reads as NaN) the amount text the stored amount was parsed from. */
  lemma {:induction false} PreviewOfAcceptedRow(host: Host, headers: seq<string>, values: seq<string>)
    requires HasRequiredColumns(headers)
    requires CheckRow(host, headers, values).Accepted?
    ensures var p, e := PreviewOfRow(headers, values), CheckRow(host, headers, values).expense;
      && p.description == e.description
      && p.category == e.category
      && e.date == host.parseDate(DateText.DateQuery(p.date))
      && (Field(headers, values, "amount") != [] ==> host.parseFloat(p.amount) == Some(e.amount))
  {
    assert FirstFailure(Checks(host, headers, values)).None?;
    ChecksPassed(host, headers, values);
  }

  datatype Preview = PreviewFailed(error: string) | PreviewShown(rows: seq<PreviewRow>)

  /** The data lines the preview looks at: `lines.slice(1, 6)`. */
  function PreviewLines(lines: seq<string>): (r: seq<string>)
    requires |lines| >= 1
    ensures |r| == if |lines| - 1 < 5 then |lines| - 1 else 5
    ensures forall k :: 0 <= k < |r| ==> r[k] == lines[k + 1]
  {
    lines[1..if |lines| < 6 then |lines| else 6]
  }

  /** What `previewFile` shows for a text. */
  function PreviewText(text: string): Preview {
    var lines := Lines(text);
    if |lines| < 2 then PreviewFailed(TooFewLinesError)
    else
      var headers := Headers(lines[0]);
      var missing := MissingColumns(headers);
      if |missing| > 0 then PreviewFailed(MissingColumnsPreviewError(missing))
      else
        PreviewShown(PreviewRows(headers, PreviewLines(lines)))
  }

  lemma {:induction false} PreviewTextShown(text: string, lines: seq<string>, headers: seq<string>)
    requires lines == Lines(text) && |lines| >= 2
    requires headers == Headers(lines[0]) && MissingColumns(headers) == []
    ensures PreviewText(text) == PreviewShown(PreviewRows(headers, PreviewLines(lines)))
  {
  }

  /** The preview rows of data lines `rows`, in order. */
  function PreviewRows(headers: seq<string>, rows: seq<string>): (r: seq<PreviewRow>)
    requires HasRequiredColumns(headers)
    ensures |r| == |rows|
    decreases |rows|
  {
    if rows == [] then []
    else PreviewRows(headers, rows[..|rows| - 1]) + [PreviewOfRow(headers, Csv.Tokenize(rows[|rows| - 1]))]
  }

  lemma {:induction false} PreviewRowsSnoc(headers: seq<string>, rows: seq<string>, i: nat)
    requires HasRequiredColumns(headers)
    requires i < |rows|
    ensures PreviewRows(headers, rows[..i + 1])
         == PreviewRows(headers, rows[..i]) + [PreviewOfRow(headers, Csv.Tokenize(rows[i]))]
  {
    assert rows[..i + 1][..i] == rows[..i];
  }

  /** Preview row `k` is data line `k` shaped by `PreviewOfRow`. */
  lemma {:induction false} PreviewRowsAt(headers: seq<string>, rows: seq<string>, k: nat)
    requires HasRequiredColumns(headers)
    requires k < |rows|
    ensures PreviewRows(headers, rows)[k] == PreviewOfRow(headers, Csv.Tokenize(rows[k]))
    decreases |rows|
  {
    if k < |rows| - 1 {
      PreviewRowsAt(headers, rows[..|rows| - 1], k);
    }
  }

  /** The preview shows between one and five rows, row `k` being data row
      `k`, and it fails exactly when the import fails before looking at any
      row (too few lines or missing columns); neither writes anything then. */
  lemma {:induction false} PreviewMatchesImport(host: Host, text: string)
    ensures var p, lines := PreviewText(text), Lines(text);
      && (p.PreviewFailed? <==> |lines| < 2 || MissingColumns(Headers(lines[0])) != [])
      && (p.PreviewFailed? ==> ImportText(host, text).batch.None? && ImportText(host, text).reply.data.Failure?)
      && (p.PreviewShown? ==>
            && 1 <= |p.rows| <= 5
            && |p.rows| == (if |lines| - 1 < 5 then |lines| - 1 else 5)
            && forall k :: 0 <= k < |p.rows| ==>
                 p.rows[k] == PreviewOfRow(Headers(lines[0]), Csv.Tokenize(lines[k + 1])))
  {
    var p, lines := PreviewText(text), Lines(text);
    if p.PreviewShown? {
      forall k | 0 <= k < |p.rows|
        ensures p.rows[k] == PreviewOfRow(Headers(lines[0]), Csv.Tokenize(lines[k + 1]))
      {
        PreviewRowsAt(Headers(lines[0]), PreviewLines(lines), k);
      }
    }
  }

  /** The import page's preview state. */
  class ImportPage {
    var previewData: seq<PreviewRow>
    var previewError: string

    constructor ()
      ensures previewData == [] && previewError == []
    {
      previewData := [];
      previewError := [];
    }

    /** `previewFile`: clears the preview, then either sets an error or the
        rows built by a loop over the first five data lines. */
    method PreviewFile(text: string)
      modifies this
      ensures PreviewText(text).PreviewFailed? ==>
        previewError == PreviewText(text).error && previewData == []
      ensures PreviewText(text).PreviewShown? ==>
        previewError == [] && previewData == PreviewText(text).rows
    {
      previewError := [];
      previewData := [];
      var lines := Lines(text);
      if |lines| < 2 {
        previewError := TooFewLinesError;
        assert PreviewText(text) == PreviewFailed(TooFewLinesError);
        return;
      }
      var headers := Headers(lines[0]);
      var missing := MissingColumns(headers);
      if |missing| > 0 {
        previewError := MissingColumnsPreviewError(missing);
        assert PreviewText(text) == PreviewFailed(MissingColumnsPreviewError(missing));
        return;
      }
      var preview: seq<PreviewRow> := [];
      var dataRows := PreviewLines(lines);
      var i := 0;
      while i < |dataRows|
        invariant 0 <= i <= |dataRows|
        invariant preview == PreviewRows(headers, dataRows[..i])
        invariant previewError == [] && previewData == []
      {
        var values := Csv.ParseCsv(dataRows[i]);
        PreviewRowsSnoc(headers, dataRows, i);
        preview := preview + [PreviewOfRow(headers, values)];
        i := i + 1;
      }
      assert dataRows[..i] == dataRows;
      PreviewTextShown(text, lines, headers);
      previewData := preview;
    }
  }
}
