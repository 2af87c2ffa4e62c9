/** The date texts the CSV import recognises before handing a date to
    `new Date(...)`: `YYYY-MM-DD`, `MM/DD/YYYY` and `M/D/YYYY`. A slash date
    is rewritten to `YYYY-MM-DD`, padding month and day to two digits with
    `padStart(2, '0')`; any other text is handed over as it is. */
module DateText {
  import opened Text

  /** `/^\d{4}-\d{2}-\d{2}$/` */
  predicate IsIsoDate(s: string) {
    && |s| == 10
    && AllDigits(s[0..4]) && s[4] == '-'
    && AllDigits(s[5..7]) && s[7] == '-'
    && AllDigits(s[8..10])
  }

  /** `s` is `a` digits, `/`, `b` digits, `/`, four digits. */
  predicate SlashShape(s: string, a: nat, b: nat) {
    && |s| == a + b + 6
    && AllDigits(s[..a]) && s[a] == '/'
    && AllDigits(s[a + 1..a + 1 + b]) && s[a + 1 + b] == '/'
    && AllDigits(s[a + b + 2..])
  }

  /** `/^\d{2}\/\d{2}\/\d{4}$/` */
  predicate IsPaddedSlashDate(s: string) {
    SlashShape(s, 2, 2)
  }

  /** `/^\d{1,2}\/\d{1,2}\/\d{4}$/` */
  predicate IsSlashDate(s: string) {
    SlashShape(s, 1, 1) || SlashShape(s, 1, 2) || SlashShape(s, 2, 1) || SlashShape(s, 2, 2)
  }

  /** Which branch of the importer's date parsing a trimmed date text takes. */
  datatype DateForm = IsoForm | PaddedSlashForm | SlashForm | OtherForm

  function Classify(s: string): DateForm {
    if IsIsoDate(s) then IsoForm
    else if IsPaddedSlashDate(s) then PaddedSlashForm
    else if IsSlashDate(s) then SlashForm
    else OtherForm
  }

  /** `p.padStart(2, '0')`. */
  function PadTwo(p: string): (r: string)
    ensures |p| <= 2 ==> |r| == 2
    ensures |p| > 2 ==> r == p
  {
    if |p| == 0 then "00" else if |p| == 1 then "0" + p else p
  }

  /** `` `${year}-${month.padStart(2, '0')}-${day.padStart(2, '0')}` `` where
      `[month, day, year] = s.split('/')`. */
  function Reorder(s: string): string
    requires IsSlashDate(s)
  {
    SlashParts(s);
    var p := Split(s, '/');
    p[2] + "-" + PadTwo(p[0]) + "-" + PadTwo(p[1])
  }

  /** The text the importer hands to `new Date(...)` for a trimmed date text. */
  function DateQuery(s: string): string {
    match Classify(s)
    case IsoForm => s
    case PaddedSlashForm => Reorder(s)
    case SlashForm => Reorder(s)
    case OtherForm => s
  }

  lemma {:induction false} DigitsHaveNoSlash(s: string)
    requires AllDigits(s)
    ensures '/' !in s
  {
  }

  /** The three pieces of a slash date, as `split('/')` returns them. */
  lemma {:induction false} SlashParts(s: string)
    requires IsSlashDate(s)
    ensures var p := Split(s, '/');
      && |p| == 3
      && 1 <= |p[0]| <= 2 && AllDigits(p[0])
      && 1 <= |p[1]| <= 2 && AllDigits(p[1])
      && |p[2]| == 4 && AllDigits(p[2])
  {
    var a, b := if SlashShape(s, 1, 1) || SlashShape(s, 1, 2) then 1 else 2,
                if SlashShape(s, 1, 1) || SlashShape(s, 2, 1) then 1 else 2;
    assert SlashShape(s, a, b);
    var x, y, z := s[..a], s[a + 1..a + 1 + b], s[a + b + 2..];
    DigitsHaveNoSlash(x);
    DigitsHaveNoSlash(y);
    DigitsHaveNoSlash(z);
    assert s == x + "/" + (y + "/" + z);
    assert Join([x, y, z], "/") == s by {
      assert Join([y, z], "/") == y + "/" + z by {
        assert Join([z], "/") == z;
        assert [y, z][1..] == [z];
      }
      assert [x, y, z][1..] == [y, z];
    }
    SplitJoin([x, y, z], '/');
  }

  /** The padded two-digit branch only accepts texts the one-or-two-digit
      branch also accepts, and both rewrite them the same way: the second
      branch could be removed without changing what is imported. */
  lemma {:induction false} PaddedSlashIsSlash(s: string)
    ensures IsPaddedSlashDate(s) ==> IsSlashDate(s)
    ensures Classify(s) == PaddedSlashForm || Classify(s) == SlashForm <==> !IsIsoDate(s) && IsSlashDate(s)
  {
  }

  /** The number a one- or two-digit text denotes is unchanged by padding it. */
  lemma {:induction false} PadTwoValue(p: string)
    requires 1 <= |p| <= 2 && AllDigits(p)
    ensures AllDigits(PadTwo(p)) && DecimalValue(PadTwo(p)) == DecimalValue(p)
  {
    if |p| == 1 {
      var r := PadTwo(p);
      assert r[..1] == "0" && r[1] == p[0];
      assert p[..0] == [];
    }
  }

  /** A slash date is rewritten to a text the ISO branch matches, whose year,
      month and day are the numbers written in the slash date. */
  lemma {:induction false} ReorderIsIso(s: string)
    requires IsSlashDate(s)
    ensures var p, r := Split(s, '/'), Reorder(s);
      && |p| == 3 && AllDigits(p[0]) && AllDigits(p[1])
      && IsIsoDate(r)
      && r[0..4] == p[2]
      && DecimalValue(r[5..7]) == DecimalValue(p[0])
      && DecimalValue(r[8..10]) == DecimalValue(p[1])
  {
    SlashParts(s);
    var p := Split(s, '/');
    var r := Reorder(s);
    PadTwoValue(p[0]);
    PadTwoValue(p[1]);
    assert r == p[2] + "-" + PadTwo(p[0]) + "-" + PadTwo(p[1]);
    assert r[0..4] == p[2];
    assert r[5..7] == PadTwo(p[0]);
    assert r[8..10] == PadTwo(p[1]);
  }

  /** `MM/DD/YYYY` for an ISO date text. */
  function SlashOf(iso: string): string
    requires IsIsoDate(iso)
  {
    iso[5..7] + "/" + iso[8..10] + "/" + iso[0..4]
  }

  /** Writing an ISO date as `MM/DD/YYYY` and rewriting it gives it back. */
  lemma {:induction false} ReorderSlashOf(iso: string)
    requires IsIsoDate(iso)
    ensures IsPaddedSlashDate(SlashOf(iso))
    ensures Reorder(SlashOf(iso)) == iso
  {
    var s := SlashOf(iso);
    assert s[..2] == iso[5..7];
    assert s[3..5] == iso[8..10];
    assert s[6..] == iso[0..4];
    SlashParts(s);
    var x, y, z := iso[5..7], iso[8..10], iso[0..4];
    DigitsHaveNoSlash(x);
    DigitsHaveNoSlash(y);
    DigitsHaveNoSlash(z);
    assert Join([x, y, z], "/") == s by {
      assert Join([y, z], "/") == y + "/" + z by {
        assert Join([z], "/") == z;
        assert [y, z][1..] == [z];
      }
      assert [x, y, z][1..] == [y, z];
      assert s == x + "/" + (y + "/" + z);
    }
    SplitJoin([x, y, z], '/');
    assert iso == z + "-" + x + "-" + y;
  }

  /** Rewriting a padded slash date and writing it back as `MM/DD/YYYY`
      gives it back. */
  lemma {:induction false} SlashOfReorder(s: string)
    requires IsPaddedSlashDate(s)
    ensures IsIsoDate(Reorder(s)) && SlashOf(Reorder(s)) == s
  {
    ReorderIsIso(s);
    var x, y, z := s[..2], s[3..5], s[6..];
    DigitsHaveNoSlash(x);
    DigitsHaveNoSlash(y);
    DigitsHaveNoSlash(z);
    assert s == x + "/" + (y + "/" + z);
    assert Join([x, y, z], "/") == s by {
      assert Join([y, z], "/") == y + "/" + z by {
        assert Join([z], "/") == z;
        assert [y, z][1..] == [z];
      }
      assert [x, y, z][1..] == [y, z];
    }
    SplitJoin([x, y, z], '/');
    var r := Reorder(s);
    assert r == z + "-" + x + "-" + y;
    assert r[5..7] == x && r[8..10] == y && r[0..4] == z;
  }

  /** What the importer hands to `new Date(...)`: an ISO text whenever the
      date text is ISO or a slash date, and the text itself otherwise. */
  lemma {:induction false} DateQueryForms(s: string)
    ensures IsIsoDate(s) ==> DateQuery(s) == s
    ensures IsSlashDate(s) ==> DateQuery(s) == Reorder(s) && IsIsoDate(DateQuery(s))
    ensures !IsIsoDate(s) && !IsSlashDate(s) ==> DateQuery(s) == s
  {
    if IsSlashDate(s) && !IsIsoDate(s) {
      ReorderIsIso(s);
    }
  }
}
