/** The text of the dashboard's CSV download (`exportToCSV`): a header
    line and one comma-joined line per participant, joined with '\n'.
    Values are written as they are: only the prize name is wrapped in
    double quotes and nothing is escaped. The locale date rendering is a
    parameter. */
module CsvExport {
  import opened Domain
  import opened Text

  const Headers: seq<string> := [
    "Entry Date", "First Name", "Last Name", "Email",
    "Phone", "Marketing Opt-In", "Prize Won", "Prize ID"]

  function OptInText(optIn: bool): string {
    if optIn then "Yes" else "No"
  }

  function Quote(s: string): string {
    ['"'] + s + ['"']
  }

  /** The eight cells of a participant's row. */
  function Cells(p: ParticipantEntry, date: string): seq<string> {
    [date, p.firstName, p.lastName, p.email, p.phone,
     OptInText(p.marketingOptIn), Quote(p.prizeWon), NatToString(p.prizeId)]
  }

  function Row(p: ParticipantEntry, date: string): string {
    Join(Cells(p, date), ',')
  }

  /** The lines of the file: the header, then one row per participant in
      list order; `dateOf` renders an entry timestamp for the locale. */
  function Lines(ps: seq<ParticipantEntry>, dateOf: string -> string): (lines: seq<string>)
    ensures |lines| == |ps| + 1
    ensures lines[0] == Join(Headers, ',')
    ensures forall i :: 0 <= i < |ps| ==> lines[i + 1] == Row(ps[i], dateOf(ps[i].entryTimestamp))
  {
    [Join(Headers, ',')] + seq(|ps|, i requires 0 <= i < |ps| => Row(ps[i], dateOf(ps[i].entryTimestamp)))
  }

  function ExportCsv(ps: seq<ParticipantEntry>, dateOf: string -> string): string {
    Join(Lines(ps, dateOf), '\n')
  }

  /** No cell of the participant's row contains `c`. */
  predicate CellsFree(p: ParticipantEntry, date: string, c: char) {
    forall k :: 0 <= k < 8 ==> c !in Cells(p, date)[k]
  }

  /** A row whose cells hold no line break holds none either. */
  lemma RowFree(p: ParticipantEntry, date: string)
    requires CellsFree(p, date, '\n')
    ensures '\n' !in Row(p, date)
  {
    JoinFree(Cells(p, date), ',', '\n');
  }

  lemma {:induction false} JoinFree(parts: seq<string>, sep: char, c: char)
    requires c != sep
    requires forall k :: 0 <= k < |parts| ==> c !in parts[k]
    ensures c !in Join(parts, sep)
  {
    if |parts| > 1 {
      JoinFree(parts[1..], sep, c);
    }
  }

  /** Read back line by line, the file has the header line followed by
      exactly one line per participant, in list order, as long as no
      value contains a line break. */
  lemma CsvLines(ps: seq<ParticipantEntry>, dateOf: string -> string)
    requires forall i :: 0 <= i < |ps| ==> CellsFree(ps[i], dateOf(ps[i].entryTimestamp), '\n')
    ensures Split(ExportCsv(ps, dateOf), '\n') == Lines(ps, dateOf)
    ensures |Split(ExportCsv(ps, dateOf), '\n')| == |ps| + 1
  {
    LinesFree(ps, dateOf);
    SplitJoin(Lines(ps, dateOf), '\n');
  }

  lemma LinesFree(ps: seq<ParticipantEntry>, dateOf: string -> string)
    requires forall i :: 0 <= i < |ps| ==> CellsFree(ps[i], dateOf(ps[i].entryTimestamp), '\n')
    ensures forall k :: 0 <= k < |ps| + 1 ==> '\n' !in Lines(ps, dateOf)[k]
  {
    HeaderFree();
    forall k | 0 <= k < |ps| + 1 ensures '\n' !in Lines(ps, dateOf)[k] {
      if k > 0 {
        LineFree(ps, dateOf, k - 1);
      }
    }
  }

  lemma HeaderFree()
    ensures '\n' !in Join(Headers, ',')
  {
    JoinFree(Headers, ',', '\n');
  }

  lemma LineFree(ps: seq<ParticipantEntry>, dateOf: string -> string, i: nat)
    requires i < |ps| && CellsFree(ps[i], dateOf(ps[i].entryTimestamp), '\n')
    ensures '\n' !in Lines(ps, dateOf)[i + 1]
  {
    RowFree(ps[i], dateOf(ps[i].entryTimestamp));
  }

  /** The header line has the eight column names. */
  lemma HeaderCells()
    ensures Split(Join(Headers, ','), ',') == Headers
  {
    SplitJoin(Headers, ',');
  }

  /** Read back cell by cell, a row has eight cells; the sixth says "Yes"
      or "No" as the participant opted in or not, and the seventh is the
      prize name in double quotes, as long as no value contains a comma. */
  lemma RowCells(p: ParticipantEntry, date: string)
    requires ',' !in date && ',' !in p.firstName && ',' !in p.lastName
    requires ',' !in p.email && ',' !in p.phone && ',' !in p.prizeWon
    ensures var cells := Split(Row(p, date), ',');
      && |cells| == 8
      && cells[5] == (if p.marketingOptIn then "Yes" else "No")
      && cells[6] == ['"'] + p.prizeWon + ['"']
      && AllDigits(cells[7])
  {
    var cells := Cells(p, date);
    assert ',' !in NatToString(p.prizeId);
    assert ',' !in Quote(p.prizeWon);
    assert forall k :: 0 <= k < 8 ==> ',' !in cells[k];
    SplitJoin(cells, ',');
  }

  /* ---- Reading a row as a spreadsheet does ----

     A spreadsheet reads a CSV line per RFC 4180: a comma between double
     quotes belongs to the field, so a line has one more field than it
     has commas outside quotes. */

  /** The commas of `s` outside double quotes, starting inside quotes
      when `quoted` holds. */
  function CommasOutside(s: string, quoted: bool): nat {
    if s == [] then 0
    else if s[0] == '"' then CommasOutside(s[1..], !quoted)
    else (if s[0] == ',' && !quoted then 1 else 0) + CommasOutside(s[1..], quoted)
  }

  /** Whether the reader is inside quotes after `s`. */
  function QuotedAfter(s: string, quoted: bool): bool {
    if s == [] then quoted
    else QuotedAfter(s[1..], if s[0] == '"' then !quoted else quoted)
  }

  /** The number of fields a spreadsheet reads from one line. */
  function FieldCount(line: string): nat {
    CommasOutside(line, false) + 1
  }

  /** A piece that adds no field and leaves the reader outside quotes. */
  predicate Neutral(s: string) {
    CommasOutside(s, false) == 0 && !QuotedAfter(s, false)
  }

  lemma {:induction false} ReadAppend(a: string, b: string, quoted: bool)
    ensures CommasOutside(a + b, quoted) == CommasOutside(a, quoted) + CommasOutside(b, QuotedAfter(a, quoted))
    ensures QuotedAfter(a + b, quoted) == QuotedAfter(b, QuotedAfter(a, quoted))
  {
    if a == [] {
      assert a + b == b;
    } else {
      assert (a + b)[1..] == a[1..] + b;
      ReadAppend(a[1..], b, if a[0] == '"' then !quoted else quoted);
    }
  }

  /** Inside quotes, a quote-free text adds nothing and stays quoted. */
  lemma {:induction false} InsideQuotes(s: string)
    requires '"' !in s
    ensures CommasOutside(s, true) == 0 && QuotedAfter(s, true)
  {
    if s != [] {
      InsideQuotes(s[1..]);
    }
  }

  /** Outside quotes, a text with neither commas nor quotes is neutral. */
  lemma {:induction false} PlainNeutral(s: string)
    requires ',' !in s && '"' !in s
    ensures Neutral(s)
  {
    if s != [] {
      PlainNeutral(s[1..]);
    }
  }

  /** A quote-free text in double quotes is one field. */
  lemma QuotedNeutral(s: string)
    requires '"' !in s
    ensures Neutral(Quote(s))
  {
    InsideQuotes(s);
    ReadAppend(s, ['"'], true);
    assert Quote(s)[1..] == s + ['"'];
  }

  /** Neutral pieces joined with commas read as one field each. */
  lemma {:induction false} JoinFields(parts: seq<string>)
    requires |parts| >= 1
    requires forall k :: 0 <= k < |parts| ==> Neutral(parts[k])
    ensures CommasOutside(Join(parts, ','), false) == |parts| - 1
    ensures !QuotedAfter(Join(parts, ','), false)
  {
    if |parts| > 1 {
      JoinFields(parts[1..]);
      var rest := Join(parts[1..], ',');
      assert Join(parts, ',') == parts[0] + ([','] + rest);
      ReadAppend(parts[0], [','] + rest, false);
      ReadAppend([','], rest, false);
    }
  }

  /** A date as `toLocaleString()` renders it in the en-US locale. */
  const LocaleDate: string := "10/10/2026, 5:32:00 PM"

  /** The values a participant typed hold neither commas nor quotes. */
  predicate PlainValues(p: ParticipantEntry) {
    && ',' !in p.firstName && '"' !in p.firstName
    && ',' !in p.lastName && '"' !in p.lastName
    && ',' !in p.email && '"' !in p.email
    && ',' !in p.phone && '"' !in p.phone
    && ',' !in p.prizeWon && '"' !in p.prizeWon
  }

  /** As written, the date cell is not quoted, so a locale date with a
      comma splits into two cells: the row has nine fields under the
      eight column names, whether it is split on every comma or read as
      a spreadsheet does. */
  lemma LocaleDateAddsField(p: ParticipantEntry)
    requires PlainValues(p)
    ensures |Split(Row(p, LocaleDate), ',')| == 9
    ensures FieldCount(Row(p, LocaleDate)) == 9
  {
    var d1 := "10/10/2026";
    var d2 := " 5:32:00 PM";
    var cells := Cells(p, LocaleDate);
    var pieces := [d1, d2] + cells[1..];
    assert LocaleDate == d1 + [','] + d2;
    assert Join(pieces, ',') == d1 + [','] + Join([d2] + cells[1..], ',');
    assert Join([d2] + cells[1..], ',') == d2 + [','] + Join(cells[1..], ',');
    assert Row(p, LocaleDate) == LocaleDate + [','] + Join(cells[1..], ',');
    assert Row(p, LocaleDate) == Join(pieces, ',');
    assert pieces == [d1, d2, p.firstName, p.lastName, p.email, p.phone,
      OptInText(p.marketingOptIn), Quote(p.prizeWon), NatToString(p.prizeId)];
    assert ',' !in NatToString(p.prizeId) && '"' !in NatToString(p.prizeId);
    assert ',' !in OptInText(p.marketingOptIn) && '"' !in OptInText(p.marketingOptIn);
    forall k | 0 <= k < |pieces| ensures ',' !in pieces[k] && Neutral(pieces[k]) {
      if k == 7 {
        QuotedNeutral(p.prizeWon);
      } else {
        PlainNeutral(pieces[k]);
      }
    }
    SplitJoin(pieces, ',');
    JoinFields(pieces);
  }

  /** The eight cells with every value in double quotes. */
  function QuotedCells(p: ParticipantEntry, date: string): seq<string> {
    [Quote(date), Quote(p.firstName), Quote(p.lastName), Quote(p.email), Quote(p.phone),
     Quote(OptInText(p.marketingOptIn)), Quote(p.prizeWon), Quote(NatToString(p.prizeId))]
  }

  /** A row that quotes every cell, as the prize name already is. */
  function QuotedRow(p: ParticipantEntry, date: string): string {
    Join(QuotedCells(p, date), ',')
  }

  /** A row that quotes every cell reads as exactly eight fields, one
      per column name, whatever commas the date or the typed values
      hold, as long as none of them holds a double quote. */
  lemma QuotedRowFields(p: ParticipantEntry, date: string)
    requires '"' !in date && '"' !in p.firstName && '"' !in p.lastName
    requires '"' !in p.email && '"' !in p.phone && '"' !in p.prizeWon
    ensures FieldCount(QuotedRow(p, date)) == |Headers|
  {
    var cells := QuotedCells(p, date);
    assert '"' !in NatToString(p.prizeId);
    assert '"' !in OptInText(p.marketingOptIn);
    QuotedNeutral(date);
    QuotedNeutral(p.firstName);
    QuotedNeutral(p.lastName);
    QuotedNeutral(p.email);
    QuotedNeutral(p.phone);
    QuotedNeutral(OptInText(p.marketingOptIn));
    QuotedNeutral(p.prizeWon);
    QuotedNeutral(NatToString(p.prizeId));
    JoinFields(cells);
  }
}
