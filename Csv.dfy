/** The import page's line tokenizer `parseCSV`: a `"` toggles quoted mode
    and is dropped, a comma outside quoted mode ends the current field, every
    other character is kept, and each field is trimmed when it ends. There is
    no escape for a literal `"`. */
module Csv {
  import opened Text

  /** The tokenizer's variables between two characters: the fields pushed so
      far, the text of the field being read, and whether a quote is open. */
  datatype ScanState = ScanState(fields: seq<string>, current: string, inQuotes: bool)

  const Start := ScanState([], [], false)

  /** One iteration of the tokenizer's loop. */
  function Step(st: ScanState, c: char): ScanState {
    if c == '"' then st.(inQuotes := !st.inQuotes)
    else if c == ',' && !st.inQuotes then ScanState(st.fields + [Trim(st.current)], [], st.inQuotes)
    else st.(current := st.current + [c])
  }

  /** The state after feeding the characters of `s`, in order, to `Step`. */
  function ScanFrom(st: ScanState, s: string): ScanState
    decreases |s|
  {
    if s == [] then st else ScanFrom(Step(st, s[0]), s[1..])
  }

  /** What `parseCSV(line)` returns: the fields pushed by the loop, then the
      trimmed text that was being read when the line ended. */
  function Tokenize(line: string): seq<string> {
    Finish(ScanFrom(Start, line))
  }

  /** The pushes after the loop: the text being read becomes the last field. */
  function Finish(st: ScanState): seq<string> {
    st.fields + [Trim(st.current)]
  }

  lemma {:induction false} ScanFromSnoc(st: ScanState, s: string, c: char)
    ensures ScanFrom(st, s + [c]) == Step(ScanFrom(st, s), c)
    decreases |s|
  {
    if s == [] {
      assert [] + [c] == [c];
    } else {
      assert (s + [c])[0] == s[0];
      assert (s + [c])[1..] == s[1..] + [c];
      ScanFromSnoc(Step(st, s[0]), s[1..], c);
    }
  }

  lemma {:induction false} ScanFromAppend(st: ScanState, a: string, b: string)
    ensures ScanFrom(st, a + b) == ScanFrom(ScanFrom(st, a), b)
    decreases |a|
  {
    if a == [] {
      assert a + b == b;
    } else {
      assert (a + b)[0] == a[0];
      assert (a + b)[1..] == a[1..] + b;
      ScanFromAppend(Step(st, a[0]), a[1..], b);
    }
  }

  /** `parseCSV` as the source writes it: a loop over the characters of the
      line that updates `current` and `inQuotes` and pushes finished fields. */
  method ParseCsv(line: string) returns (result: seq<string>)
    ensures result == Tokenize(line)
    ensures |result| == 1 + UnquotedCommas(line)
    ensures forall k :: 0 <= k < |result| ==> '"' !in result[k] && IsTrimmed(result[k])
  {
    result := [];
    var current: string := [];
    var inQuotes := false;
    var i := 0;
    while i < |line|
      invariant 0 <= i <= |line|
      invariant ScanState(result, current, inQuotes) == ScanFrom(Start, line[..i])
    {
      var c := line[i];
      ScanFromSnoc(Start, line[..i], c);
      assert line[..i + 1] == line[..i] + [c];
      if c == '"' {
        inQuotes := !inQuotes;
      } else if c == ',' && !inQuotes {
        result := result + [Trim(current)];
        current := [];
      } else {
        current := current + [c];
      }
      i := i + 1;
    }
    assert line[..i] == line;
    result := result + [Trim(current)];
    TokenizeFieldCount(line);
    TokenizeFieldsClean(line);
  }

  /** The number of `"` characters in `s`. */
  function QuoteCount(s: string): nat
    decreases |s|
  {
    if s == [] then 0
    else QuoteCount(s[..|s| - 1]) + (if s[|s| - 1] == '"' then 1 else 0)
  }

  /** The number of positions of `s` holding a comma preceded by an even
      number of `"` characters, i.e. the commas outside any quoted stretch. */
  function UnquotedCommas(s: string): nat
    decreases |s|
  {
    if s == [] then 0
    else
      var p := s[..|s| - 1];
      UnquotedCommas(p) + (if s[|s| - 1] == ',' && QuoteCount(p) % 2 == 0 then 1 else 0)
  }

  /** Scanning `s` from the start leaves a quote open exactly when `s` holds
      an odd number of `"`, and has pushed one field per unquoted comma. */
  lemma {:induction false} ScanCounts(s: string)
    ensures ScanFrom(Start, s).inQuotes <==> QuoteCount(s) % 2 == 1
    ensures |ScanFrom(Start, s).fields| == UnquotedCommas(s)
    decreases |s|
  {
    if s != [] {
      var p := s[..|s| - 1];
      ScanCounts(p);
      assert s == p + [s[|s| - 1]];
      ScanFromSnoc(Start, p, s[|s| - 1]);
    }
  }

  /** `parseCSV` returns one more field than there are commas outside quotes;
      in particular a line without commas, and the empty line, give one field. */
  lemma {:induction false} TokenizeFieldCount(line: string)
    ensures |Tokenize(line)| == 1 + UnquotedCommas(line)
  {
    ScanCounts(line);
  }

  /** Every field pushed while scanning is trimmed and free of `"`, and so is
      the text being read. */
  lemma {:induction false} ScanClean(st: ScanState, s: string)
    requires forall k :: 0 <= k < |st.fields| ==> '"' !in st.fields[k] && IsTrimmed(st.fields[k])
    requires '"' !in st.current
    ensures var r := ScanFrom(st, s);
      && (forall k :: 0 <= k < |r.fields| ==> '"' !in r.fields[k] && IsTrimmed(r.fields[k]))
      && '"' !in r.current
    decreases |s|
  {
    if s != [] {
      ScanClean(Step(st, s[0]), s[1..]);
    }
  }

  /** No field returned by `parseCSV` contains `"`, and every field is trimmed. */
  lemma {:induction false} TokenizeFieldsClean(line: string)
    ensures forall k :: 0 <= k < |Tokenize(line)| ==> '"' !in Tokenize(line)[k] && IsTrimmed(Tokenize(line)[k])
  {
    ScanClean(Start, line);
  }

  /** One field of a line as a writer would lay it out: bare, or wrapped in
      double quotes. */
  datatype Cell = Bare(text: string) | Quoted(text: string)

  /** The tokenizer reads a cell back when its text has no `"`, and a bare
      cell's text has no comma. */
  predicate Readable(c: Cell) {
    '"' !in c.text && (c.Bare? ==> ',' !in c.text)
  }

  function CellText(c: Cell): string {
    match c
    case Bare(t) => t
    case Quoted(t) => "\"" + t + "\""
  }

  /** The line holding `cells`, separated by commas. */
  function EncodeLine(cells: seq<Cell>): string
    requires |cells| >= 1
    decreases |cells|
  {
    if |cells| == 1 then CellText(cells[0]) else CellText(cells[0]) + "," + EncodeLine(cells[1..])
  }

  /** Characters other than `"` that are read while a quote is open, or that
      are neither `"` nor `,`, only extend the current field. */
  lemma {:induction false} ScanPlain(st: ScanState, t: string)
    requires '"' !in t
    requires st.inQuotes || ',' !in t
    ensures ScanFrom(st, t) == st.(current := st.current + t)
    decreases |t|
  {
    if t == [] {
      assert st.current + t == st.current;
    } else {
      assert t[0] in t;
      assert forall c :: c in t[1..] ==> c in t;
      ScanPlain(Step(st, t[0]), t[1..]);
      assert st.current + [t[0]] + t[1..] == st.current + t;
    }
  }

  lemma {:induction false} ScanCell(st: ScanState, c: Cell)
    requires Readable(c) && !st.inQuotes && st.current == []
    ensures ScanFrom(st, CellText(c)) == st.(current := c.text)
  {
    match c
    case Bare(t) =>
      ScanPlain(st, t);
    case Quoted(t) =>
      var open := st.(inQuotes := true);
      ScanFromAppend(st, "\"", t + "\"");
      ScanFromAppend(open, t, "\"");
      ScanPlain(open, t);
      assert "\"" + t + "\"" == "\"" + (t + "\"");
  }

  /** A readable cell followed by a comma becomes one trimmed field. */
  lemma {:induction false} ScanCellComma(st: ScanState, c: Cell, rest: string)
    requires Readable(c) && !st.inQuotes && st.current == []
    ensures ScanFrom(st, CellText(c) + "," + rest)
         == ScanFrom(ScanState(st.fields + [Trim(c.text)], [], false), rest)
  {
    var afterCell := st.(current := c.text);
    assert CellText(c) + "," + rest == CellText(c) + ("," + rest);
    ScanCell(st, c);
    ScanFromAppend(st, CellText(c), "," + rest);
    ScanFromAppend(afterCell, ",", rest);
    assert ","[1..] == [];
  }

  /** The trimmed texts of `cells`, in order. */
  function TrimmedTexts(cells: seq<Cell>): (r: seq<string>)
    ensures |r| == |cells|
    ensures forall k :: 0 <= k < |cells| ==> r[k] == Trim(cells[k].text)
    decreases |cells|
  {
    if cells == [] then [] else [Trim(cells[0].text)] + TrimmedTexts(cells[1..])
  }

  lemma {:induction false} ScanEncodeLine(st: ScanState, cells: seq<Cell>)
    requires |cells| >= 1
    requires forall k :: 0 <= k < |cells| ==> Readable(cells[k])
    requires !st.inQuotes && st.current == []
    ensures Finish(ScanFrom(st, EncodeLine(cells))) == st.fields + TrimmedTexts(cells)
    decreases |cells|
  {
    if |cells| == 1 {
      ScanCell(st, cells[0]);
      assert TrimmedTexts(cells) == [Trim(cells[0].text)];
    } else {
      var x := Trim(cells[0].text);
      var next := ScanState(st.fields + [x], [], false);
      var tail := EncodeLine(cells[1..]);
      assert forall k :: 0 <= k < |cells[1..]| ==> Readable(cells[1..][k]) by {
        forall k | 0 <= k < |cells[1..]| ensures Readable(cells[1..][k]) {
          assert cells[1..][k] == cells[k + 1];
        }
      }
      calc {
        Finish(ScanFrom(st, EncodeLine(cells)));
        { ScanCellComma(st, cells[0], tail); }
        Finish(ScanFrom(next, tail));
        { ScanEncodeLine(next, cells[1..]); }
        (st.fields + [x]) + TrimmedTexts(cells[1..]);
        st.fields + ([x] + TrimmedTexts(cells[1..]));
      }
    }
  }

  /** Laying out cells as a line and tokenizing it gives back the cells'
      trimmed texts: quoted cells keep their commas, quotes are dropped, and
      the field count is the cell count. */
  lemma {:induction false} TokenizeEncodeLine(cells: seq<Cell>)
    requires |cells| >= 1
    requires forall k :: 0 <= k < |cells| ==> Readable(cells[k])
    ensures Tokenize(EncodeLine(cells)) == TrimmedTexts(cells)
  {
    ScanEncodeLine(Start, cells);
    assert Start.fields + TrimmedTexts(cells) == TrimmedTexts(cells);
  }
}
