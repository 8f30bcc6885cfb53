/** The dashboard's CSV export: one header record and one record per
    booking, every cell in double quotes, cells joined by commas and records
    by newlines. */
module Csv {
  import opened Text
  import opened Records

  const Header: seq<string> :=
    ["Name", "Phone", "Date", "Time", "Location", "Event", "Package", "Status", "Notes", "Booked On"]

  /** `value || '-'` for an optional text field: missing, null and empty
      all become a dash. */
  function OrDash(v: Option<string>): (r: string)
    ensures v.Some? && v.value != "" ==> r == v.value
    ensures v.None? || v.value == "" ==> r == "-"
    ensures r != ""
  {
    if v.Some? && v.value != "" then v.value else "-"
  }

  /** The cells of one booking, in header order. The creation time is
      rendered by the browser's locale, given here as `localeDate`. */
  function BookingCells(b: Booking, localeDate: string -> string): (r: seq<string>)
    ensures |r| == |Header|
  {
    [b.name, b.phone, b.preferredDate, b.preferredTime, OrDash(b.location), b.eventType,
     OrDash(b.selectedPackage), b.status, OrDash(b.importantInfo), localeDate(b.createdAt)]
  }

  /** The records of the export: the header, then one per booking in the
      order given. */
  function CsvRecords(bookings: seq<Booking>, localeDate: string -> string): (r: seq<seq<string>>)
    ensures |r| == |bookings| + 1 && r[0] == Header
    ensures forall i :: 0 <= i < |bookings| ==> r[i + 1] == BookingCells(bookings[i], localeDate)
  {
    [Header] + seq(|bookings|, i requires 0 <= i < |bookings| => BookingCells(bookings[i], localeDate))
  }

  /** A cell as the dashboard writes it: wrapped in quotes, nothing else. */
  function Quote(c: string): string {
    "\"" + c + "\""
  }

  /** Every double quote doubled, as section 2 (rule 7) of RFC 4180 asks. */
  function DoubleQuotes(c: string): (r: string)
    ensures '"' !in c ==> r == c
  {
    if c == [] then []
    else (if c[0] == '"' then "\"\"" else [c[0]]) + DoubleQuotes(c[1..])
  }

  /** A cell escaped as RFC 4180 requires. */
  function EscapeCell(c: string): string {
    "\"" + DoubleQuotes(c) + "\""
  }

  function EncodeCells(cells: seq<string>, cell: string -> string): (r: seq<string>)
    ensures |r| == |cells|
    ensures forall i :: 0 <= i < |cells| ==> r[i] == cell(cells[i])
  {
    seq(|cells|, i requires 0 <= i < |cells| => cell(cells[i]))
  }

  /** One record: the encoded cells joined by commas. */
  function EncodeRecord(cells: seq<string>, cell: string -> string): string {
    Join(EncodeCells(cells, cell), ',')
  }

  function EncodeRecords(rows: seq<seq<string>>, cell: string -> string): (r: seq<string>)
    ensures |r| == |rows|
    ensures forall i :: 0 <= i < |rows| ==> r[i] == EncodeRecord(rows[i], cell)
  {
    seq(|rows|, i requires 0 <= i < |rows| => EncodeRecord(rows[i], cell))
  }

  /** A whole file: the records joined by newlines, none after the last. */
  function Encode(rows: seq<seq<string>>, cell: string -> string): string {
    Join(EncodeRecords(rows, cell), '\n')
  }

  /** `exportCSV` as written: cells quoted but embedded quotes kept as they
      are. */
  function ExportCsv(bookings: seq<Booking>, localeDate: string -> string): (r: string)
    ensures EncodeRecord(Header, Quote) <= r
  {
    var rows := CsvRecords(bookings, localeDate);
    JoinStartsWith(EncodeRecords(rows, Quote), '\n');
    Encode(rows, Quote)
  }

  /** The export with cells escaped as RFC 4180 requires. */
  function ExportCsvEscaped(bookings: seq<Booking>, localeDate: string -> string): string {
    Encode(CsvRecords(bookings, localeDate), EscapeCell)
  }

  // ---------------------------------------------------------------------
  // Reading a file back (RFC 4180, every field quoted)

  /** The content of a quoted field whose opening quote has been consumed,
      and the text after its closing quote. */
  function ParseQuoted(s: string): (r: Option<(string, string)>)
    ensures r.Some? ==> |r.value.1| < |s|
    decreases |s|
  {
    if s == [] then None
    else if s[0] == '"' then
      if |s| >= 2 && s[1] == '"' then
        match ParseQuoted(s[2..])
        case None => None
        case Some((c, rest)) => Some(("\"" + c, rest))
      else Some(([], s[1..]))
    else
      match ParseQuoted(s[1..])
      case None => None
      case Some((c, rest)) => Some(([s[0]] + c, rest))
  }

  /** The records of a file whose fields are all quoted. */
  function ParseCsv(s: string): (r: Option<seq<seq<string>>>)
    ensures r.Some? ==> |r.value| >= 1 && r.value[0] != []
    decreases |s|
  {
    if s == [] || s[0] != '"' then None
    else
      match ParseQuoted(s[1..])
      case None => None
      case Some((c, rest)) =>
        if rest == [] then Some([[c]])
        else if rest[0] == ',' then
          match ParseCsv(rest[1..])
          case None => None
          case Some(recs) => Some([[c] + recs[0]] + recs[1..])
        else if rest[0] == '\n' then
          match ParseCsv(rest[1..])
          case None => None
          case Some(recs) => Some([[c]] + recs)
        else None
  }

  /** The reader copies an unquoted character. */
  lemma {:induction false} ParseQuotedPlain(x: char, tail: string, c: string, rest: string)
    requires x != '"' && ParseQuoted(tail) == Some((c, rest))
    ensures ParseQuoted([x] + tail) == Some(([x] + c, rest))
  {
    assert ([x] + tail)[1..] == tail;
  }

  /** The reader turns a doubled quote into one quote. */
  lemma {:induction false} ParseQuotedPair(tail: string, c: string, rest: string)
    requires ParseQuoted(tail) == Some((c, rest))
    ensures ParseQuoted("\"\"" + tail) == Some(("\"" + c, rest))
  {
    assert ("\"\"" + tail)[2..] == tail;
  }

  /** An escaped field body: the reader stops at the first quote that is
      not doubled and returns the cell it escaped. */
  lemma {:induction false} ParseEscapedField(c: string, rest: string)
    requires rest == [] || rest[0] != '"'
    ensures ParseQuoted(DoubleQuotes(c) + "\"" + rest) == Some((c, rest))
    decreases |c|
  {
    if c == [] {
      var s := DoubleQuotes(c) + "\"" + rest;
      assert s == "\"" + rest;
      assert s[1..] == rest;
    } else {
      ParseEscapedField(c[1..], rest);
      ParseEscapedStep(c, rest);
    }
  }

  /** The reader's step over the first escaped character of a cell. */
  lemma {:induction false} ParseEscapedStep(c: string, rest: string)
    requires c != [] && (rest == [] || rest[0] != '"')
    requires ParseQuoted(DoubleQuotes(c[1..]) + "\"" + rest) == Some((c[1..], rest))
    ensures ParseQuoted(DoubleQuotes(c) + "\"" + rest) == Some((c, rest))
  {
    var d := DoubleQuotes(c[1..]);
    var tail := d + "\"" + rest;
    if c[0] == '"' {
      assert DoubleQuotes(c) == "\"\"" + d;
      AppendAssoc("\"\"", d, "\"", rest);
      ParseQuotedPair(tail, c[1..], rest);
      assert "\"" + c[1..] == c;
    } else {
      assert DoubleQuotes(c) == [c[0]] + d;
      AppendAssoc([c[0]], d, "\"", rest);
      ParseQuotedPlain(c[0], tail, c[1..], rest);
      assert [c[0]] + c[1..] == c;
    }
  }

  /** One step of the reader over an escaped field. */
  lemma {:induction false} ParseEscapedCell(c: string, rest: string)
    requires rest == [] || rest[0] != '"'
    ensures rest == [] ==> ParseCsv(EscapeCell(c) + rest) == Some([[c]])
    ensures rest != [] && rest[0] == ',' && ParseCsv(rest[1..]).Some? ==>
      var recs := ParseCsv(rest[1..]).value;
      ParseCsv(EscapeCell(c) + rest) == Some([[c] + recs[0]] + recs[1..])
    ensures rest != [] && rest[0] == '\n' && ParseCsv(rest[1..]).Some? ==>
      ParseCsv(EscapeCell(c) + rest) == Some([[c]] + ParseCsv(rest[1..]).value)
  {
    var s := EscapeCell(c) + rest;
    ParseEscapedField(c, rest);
    assert s == "\"" + (DoubleQuotes(c) + "\"" + rest);
    assert s[0] == '"' && s[1..] == DoubleQuotes(c) + "\"" + rest;
  }

  /** One escaped record followed by nothing, or by a newline and more
      records, reads back as that record followed by those records. */
  lemma {:induction false} ParseEscapedRecord(cells: seq<string>, tail: string, after: seq<seq<string>>)
    requires cells != []
    requires (tail == [] && after == []) || (tail != [] && tail[0] == '\n' && ParseCsv(tail[1..]) == Some(after))
    ensures ParseCsv(EncodeRecord(cells, EscapeCell) + tail) == Some([cells] + after)
    decreases |cells|
  {
    if |cells| == 1 {
      ParseEscapedSingle(cells[0], tail, after);
      assert cells == [cells[0]];
    } else {
      ParseEscapedRecord(cells[1..], tail, after);
      ParseEscapedCons(cells, tail, after);
    }
  }

  lemma {:induction false} ParseEscapedSingle(c: string, tail: string, after: seq<seq<string>>)
    requires (tail == [] && after == []) || (tail != [] && tail[0] == '\n' && ParseCsv(tail[1..]) == Some(after))
    ensures ParseCsv(EncodeRecord([c], EscapeCell) + tail) == Some([[c]] + after)
  {
    assert EncodeCells([c], EscapeCell) == [EscapeCell(c)];
    ParseEscapedCell(c, tail);
    if tail == [] {
      assert [[c]] + after == [[c]];
    }
  }

  lemma {:induction false} ParseEscapedCons(cells: seq<string>, tail: string, after: seq<seq<string>>)
    requires |cells| > 1
    requires ParseCsv(EncodeRecord(cells[1..], EscapeCell) + tail) == Some([cells[1..]] + after)
    ensures ParseCsv(EncodeRecord(cells, EscapeCell) + tail) == Some([cells] + after)
  {
    var c := cells[0];
    var more := EncodeRecord(cells[1..], EscapeCell) + tail;
    var rest := "," + more;
    assert rest[1..] == more;
    RecordCons(cells, EscapeCell, tail);
    ParseEscapedCell(c, rest);
    var recs := [cells[1..]] + after;
    assert ParseCsv(rest[1..]) == Some(recs);
    assert recs[0] == cells[1..] && recs[1..] == after;
    assert [c] + cells[1..] == cells;
    assert EncodeRecord(cells, EscapeCell) + tail == EscapeCell(c) + rest;
    assert ParseCsv(EscapeCell(c) + rest) == Some([[c] + recs[0]] + recs[1..]);
  }

  lemma {:induction false} RecordCons(cells: seq<string>, cell: string -> string, tail: string)
    requires |cells| > 1
    ensures EncodeRecord(cells, cell) + tail
      == cell(cells[0]) + ("," + (EncodeRecord(cells[1..], cell) + tail))
  {
    var enc := EncodeCells(cells, cell);
    assert EncodeCells(cells[1..], cell) == enc[1..];
    JoinCons(enc[0], enc[1..], ',');
    assert enc == [enc[0]] + enc[1..];
  }

  /** Files written with RFC 4180 escaping read back as the records they
      were written from. */
  lemma {:induction false} EscapedRoundTrip(rows: seq<seq<string>>)
    requires rows != []
    requires forall i :: 0 <= i < |rows| ==> rows[i] != []
    ensures ParseCsv(Encode(rows, EscapeCell)) == Some(rows)
    decreases |rows|
  {
    if |rows| == 1 {
      ParseEscapedRecord(rows[0], [], []);
      assert EncodeRecords(rows, EscapeCell) == [EncodeRecord(rows[0], EscapeCell)];
      assert EncodeRecord(rows[0], EscapeCell) + [] == EncodeRecord(rows[0], EscapeCell);
      assert [rows[0]] + [] == rows;
    } else {
      EscapedRoundTrip(rows[1..]);
      var tail := "\n" + Encode(rows[1..], EscapeCell);
      assert tail[1..] == Encode(rows[1..], EscapeCell);
      ParseEscapedRecord(rows[0], tail, rows[1..]);
      FileCons(rows, EscapeCell);
      assert [rows[0]] + rows[1..] == rows;
    }
  }

  lemma {:induction false} FileCons(rows: seq<seq<string>>, cell: string -> string)
    requires |rows| > 1
    ensures Encode(rows, cell) == EncodeRecord(rows[0], cell) + ("\n" + Encode(rows[1..], cell))
  {
    var lines := EncodeRecords(rows, cell);
    assert EncodeRecords(rows[1..], cell) == lines[1..];
    JoinCons(lines[0], lines[1..], '\n');
    assert lines == [lines[0]] + lines[1..];
  }

  /** The escaped export reads back as the header followed by one record
      per booking, cell for cell. */
  lemma {:induction false} ExportCsvEscapedRoundTrip(bookings: seq<Booking>, localeDate: string -> string)
    ensures ParseCsv(ExportCsvEscaped(bookings, localeDate)) == Some(CsvRecords(bookings, localeDate))
  {
    var rows := CsvRecords(bookings, localeDate);
    assert forall i :: 0 <= i < |rows| ==> |rows[i]| == 10;
    EscapedRoundTrip(rows);
  }

  /** Without a quote in any cell the export as written coincides with the
      escaped one, so it reads back faithfully too. */
  lemma {:induction false} ExportCsvRoundTripWithoutQuotes(bookings: seq<Booking>, localeDate: string -> string)
    requires forall i, j :: 0 <= i < |bookings| && 0 <= j < |Header| ==>
      '"' !in BookingCells(bookings[i], localeDate)[j]
    ensures ExportCsv(bookings, localeDate) == ExportCsvEscaped(bookings, localeDate)
    ensures ParseCsv(ExportCsv(bookings, localeDate)) == Some(CsvRecords(bookings, localeDate))
  {
    var rows := CsvRecords(bookings, localeDate);
    assert forall i, j :: 0 <= i < |rows| && 0 <= j < |rows[i]| ==> '"' !in rows[i][j] by {
      forall i, j | 0 <= i < |rows| && 0 <= j < |rows[i]| ensures '"' !in rows[i][j] {
        if i > 0 {
          assert rows[i] == BookingCells(bookings[i - 1], localeDate);
        }
      }
    }
    assert EncodeRecords(rows, Quote) == EncodeRecords(rows, EscapeCell) by {
      forall i | 0 <= i < |rows|
        ensures EncodeRecord(rows[i], Quote) == EncodeRecord(rows[i], EscapeCell)
      {
        assert EncodeCells(rows[i], Quote) == EncodeCells(rows[i], EscapeCell);
      }
    }
    ExportCsvEscapedRoundTrip(bookings, localeDate);
  }

  /** As written the export is not injective: a quote-comma-quote inside a
      cell reads as a cell boundary, so two different bookings produce the
      same file. */
  lemma {:induction false} ExportCsvCollision(localeDate: string -> string)
    ensures exists b1: Booking, b2: Booking ::
      b1 != b2 && ExportCsv([b1], localeDate) == ExportCsv([b2], localeDate)
  {
    var b1 := Booking("1", "a\",\"b", "c", "2024-05-01", "10:00", "Wedding",
                      Some(""), Some(""), Some(""), Pending, "t");
    var b2 := b1.(name := "a", phone := "b\",\"c");
    var rest := BookingCells(b1, localeDate)[2..];
    assert "a\",\"b" == "a" + Boundary + "b" && "b\",\"c" == "b" + Boundary + "c";
    assert BookingCells(b1, localeDate) == ["a" + Boundary + "b", "c"] + rest;
    assert BookingCells(b2, localeDate) == ["a", "b" + Boundary + "c"] + rest;
    QuoteCollision("a", "b", "c", rest);
    FileCons(CsvRecords([b1], localeDate), Quote);
    FileCons(CsvRecords([b2], localeDate), Quote);
    assert CsvRecords([b1], localeDate)[1..] == [BookingCells(b1, localeDate)];
    assert CsvRecords([b2], localeDate)[1..] == [BookingCells(b2, localeDate)];
    assert EncodeRecords([BookingCells(b1, localeDate)], Quote) == [EncodeRecord(BookingCells(b1, localeDate), Quote)];
    assert EncodeRecords([BookingCells(b2, localeDate)], Quote) == [EncodeRecord(BookingCells(b2, localeDate), Quote)];
    assert b1.name != b2.name;
  }

  /** The text that separates two quoted cells. */
  const Boundary: string := "\",\""

  /** Two quoted cells and whatever follows: moving a boundary from inside
      the first cell to inside the second leaves the text unchanged. */
  lemma {:induction false} QuotedPairShift(p: string, q: string, t: string, u: string)
    ensures Quote(p + Boundary + q) + ("," + (Quote(t) + u))
         == Quote(p) + ("," + (Quote(q + Boundary + t) + u))
  {
    var d := "\"";
    assert Boundary == d + "," + d;
    calc {
      Quote(p + Boundary + q) + ("," + (Quote(t) + u));
      (d + (p + Boundary + q) + d) + ("," + ((d + t + d) + u));
      d + p + (d + "," + d) + q + d + "," + d + t + d + u;
      d + p + d + "," + (d + q + (d + "," + d) + t + d) + u;
      (d + p + d) + ("," + ((d + (q + Boundary + t) + d) + u));
      Quote(p) + ("," + (Quote(q + Boundary + t) + u));
    }
  }

  /** As written, a record whose first cell holds the boundary text is
      written exactly as the record with that boundary moved into the
      second cell: the cells `a","b` and `c` look like `a` and `b","c`. */
  lemma {:induction false} QuoteCollision(p: string, q: string, t: string, rest: seq<string>)
    requires rest != []
    ensures EncodeRecord([p + Boundary + q, t] + rest, Quote)
         == EncodeRecord([p, q + Boundary + t] + rest, Quote)
  {
    var x := [p + Boundary + q, t] + rest;
    var y := [p, q + Boundary + t] + rest;
    RecordCons(x, Quote, []);
    RecordCons(x[1..], Quote, []);
    RecordCons(y, Quote, []);
    RecordCons(y[1..], Quote, []);
    assert x[1..][1..] == rest == y[1..][1..];
    assert x[0] == p + Boundary + q && x[1..][0] == t;
    assert y[0] == p && y[1..][0] == q + Boundary + t;
    var r := EncodeRecord(rest, Quote);
    var x1 := EncodeRecord(x[1..], Quote);
    var y1 := EncodeRecord(y[1..], Quote);
    assert x1 + [] == x1 && y1 + [] == y1 && r + [] == r;
    var u := "," + r;
    assert EncodeRecord(x[1..], Quote) == Quote(t) + u;
    assert EncodeRecord(y[1..], Quote) == Quote(q + Boundary + t) + u;
    QuotedPairShift(p, q, t, u);
    var ex := EncodeRecord(x, Quote);
    var ey := EncodeRecord(y, Quote);
    assert ex + [] == ex && ey + [] == ey;
    assert ex == Quote(p + Boundary + q) + ("," + (Quote(t) + u));
    assert ey == Quote(p) + ("," + (Quote(q + Boundary + t) + u));
  }

  /** Without a newline in any cell, the export as written has exactly one
      line per record: the header line first, then one per booking in input
      order, and no trailing newline. */
  lemma {:induction false} ExportCsvLines(bookings: seq<Booking>, localeDate: string -> string)
    requires forall i, j :: 0 <= i < |bookings| && 0 <= j < |Header| ==>
      '\n' !in BookingCells(bookings[i], localeDate)[j]
    ensures var lines := Split(ExportCsv(bookings, localeDate), '\n');
      && |lines| == |bookings| + 1
      && lines[0] == EncodeRecord(Header, Quote)
      && forall i :: 0 <= i < |bookings| ==> lines[i + 1] == EncodeRecord(BookingCells(bookings[i], localeDate), Quote)
  {
    var rows := CsvRecords(bookings, localeDate);
    forall i, j | 0 <= i < |rows| && 0 <= j < |rows[i]| ensures '\n' !in rows[i][j] {
      if i > 0 {
        assert rows[i] == BookingCells(bookings[i - 1], localeDate);
      }
    }
    LinesAvoidNewline(rows);
    SplitJoin(EncodeRecords(rows, Quote), '\n');
  }

  /** Records whose cells hold no newline are written as lines that hold
      none either. */
  lemma {:induction false} LinesAvoidNewline(rows: seq<seq<string>>)
    requires forall i, j :: 0 <= i < |rows| && 0 <= j < |rows[i]| ==> '\n' !in rows[i][j]
    ensures forall i :: 0 <= i < |rows| ==> '\n' !in EncodeRecords(rows, Quote)[i]
  {
    forall i | 0 <= i < |rows| ensures '\n' !in EncodeRecord(rows[i], Quote) {
      var cells := EncodeCells(rows[i], Quote);
      forall j | 0 <= j < |cells| ensures '\n' !in cells[j] {
        assert cells[j] == Quote(rows[i][j]);
      }
      JoinAvoids(cells, ',', '\n');
    }
  }

  /** Joining pieces free of a character other than the separator gives a
      text free of it. */
  lemma {:induction false} JoinAvoids(parts: seq<string>, sep: char, c: char)
    requires sep != c
    requires forall k :: 0 <= k < |parts| ==> c !in parts[k]
    ensures c !in Join(parts, sep)
    decreases |parts|
  {
    if |parts| > 1 {
      JoinAvoids(parts[1..], sep, c);
    }
  }
}
