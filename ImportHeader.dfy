/** The import's header rules: each header token is lower-cased and loses its
    `'` and `"` marks, and the four required columns must all be present
    (in any order, extra columns allowed). */
module ImportHeader {
  import opened Text
  import opened Seqs
  import Csv

  /** `h.toLowerCase().replace(/['"]/g, '')`: the token's characters,
      lower-cased, without quote marks, in order; a token already in that
      form is its own header name. */
  function NormalizeHeader(h: string): (r: string)
    ensures r == Filter(ToLowerAscii(h), NotQuoteMark)
    ensures |r| <= |h|
    ensures forall c :: c in r ==> !IsQuoteMark(c) && !('A' <= c <= 'Z')
    ensures (forall i :: 0 <= i < |h| ==> !IsQuoteMark(h[i]) && !('A' <= h[i] <= 'Z')) ==> r == h
  {
    var lower := ToLowerAscii(h);
    assert forall c :: c in lower ==> !('A' <= c <= 'Z') by {
      forall c | c in lower ensures !('A' <= c <= 'Z') {
        var k :| 0 <= k < |lower| && lower[k] == c;
        assert c == LowerChar(h[k]);
      }
    }
    assert (forall i :: 0 <= i < |h| ==> !IsQuoteMark(h[i]) && !('A' <= h[i] <= 'Z')) ==> lower == h;
    StripQuoteMarks(lower)
  }

  /** Normalising twice is normalising once. */
  lemma {:induction false} NormalizeHeaderIdempotent(h: string)
    ensures NormalizeHeader(NormalizeHeader(h)) == NormalizeHeader(h)
  {
    var r := NormalizeHeader(h);
    assert forall i :: 0 <= i < |r| ==> r[i] in r;
  }

  /** Quote marks around a token do not change its header name. */
  lemma {:induction false} QuotedHeader(q: char, h: string)
    requires IsQuoteMark(q)
    ensures NormalizeHeader([q] + h + [q]) == NormalizeHeader(h)
  {
    var lower := ToLowerAscii(h);
    assert ToLowerAscii([q] + h + [q]) == [q] + lower + [q];
    assert ([q] + lower + [q])[0] == q;
    assert ([q] + lower + [q])[1..] == lower + [q];
    FilterSnoc(lower, q, NotQuoteMark);
  }

  /** Header names ignore the case of ASCII letters. */
  lemma {:induction false} HeaderIgnoresCase(h: string)
    ensures NormalizeHeader(ToLowerAscii(h)) == NormalizeHeader(h)
  {
    assert ToLowerAscii(ToLowerAscii(h)) == ToLowerAscii(h);
  }

  /** `parseCSV(line).map(normalize)`: the header names of a header line. */
  function Headers(line: string): seq<string> {
    var tokens := Csv.Tokenize(line);
    seq(|tokens|, k requires 0 <= k < |tokens| => NormalizeHeader(tokens[k]))
  }

  const RequiredColumns: seq<string> := ["description", "amount", "category", "date"]

  predicate HasRequiredColumns(headers: seq<string>) {
    "description" in headers && "amount" in headers && "category" in headers && "date" in headers
  }

  /** `col => !headers.includes(col)`. */
  function Absent(headers: seq<string>): string -> bool {
    col => col !in headers
  }

  /** `requiredColumns.filter(col => !headers.includes(col))`: exactly the
      required columns the headers lack, in the order description, amount,
      category, date. */
  function MissingColumns(headers: seq<string>): (r: seq<string>)
    ensures forall c :: c in r <==> c in RequiredColumns && c !in headers
    ensures IsSubsequence(r, RequiredColumns)
    ensures r == [] <==> HasRequiredColumns(headers)
  {
    Filter(RequiredColumns, Absent(headers))
  }

  /** The action's error for missing columns. */
  function MissingColumnsError(missing: seq<string>): string {
    "Missing required columns: " + Join(missing, ", ") + ". Expected columns: description, amount, category, date"
  }

  /** The preview's error for missing columns. */
  function MissingColumnsPreviewError(missing: seq<string>): string {
    "Missing required columns: " + Join(missing, ", ")
  }

  /** Only which names occur among the headers matters: two header lists
      holding the same names, in any order and with any repeats, miss the same
      columns; extra columns never make a column missing; and every absent
      required name is reported. */
  lemma {:induction false} MissingColumnsExact(headers: seq<string>, other: seq<string>, extra: seq<string>)
    ensures (forall c :: c in headers <==> c in other) ==> MissingColumns(headers) == MissingColumns(other)
    ensures MissingColumns(headers) == [] ==> MissingColumns(headers + extra) == []
    ensures forall c :: c !in MissingColumns(headers) ==> c !in MissingColumns(headers + extra)
    ensures forall c :: c in RequiredColumns && c !in headers ==> c in MissingColumns(headers)
  {
    if forall c :: c in headers <==> c in other {
      FilterCongruent(RequiredColumns, Absent(headers), Absent(other));
    }
    assert forall c :: c in headers ==> c in headers + extra;
  }
}
