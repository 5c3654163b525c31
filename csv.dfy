/**
 * `parseCsv`: a loose subset of section 2 of RFC 4180. Lines are split on line feeds
 * (carriage returns are deleted first), blank lines are skipped, the first line names
 * the columns. A quoted field may hold commas, and a doubled quote inside quotes stands
 * for one quote; there are no line breaks inside quotes, every cell is trimmed, and
 * malformed quoting never fails: quote characters simply toggle the quoted state.
 *
 * The copy in functions/api/providers/nearby.js (line 132) splits on the two-character
 * text backslash-n instead of a line feed; it is modelled as written in
 * `NearbyCsvLines` only to exhibit the difference.
 */
module Csv {
  import opened Text

  /** One parsed row: column name to cell text. */
  type Record = map<string, string>

  /** Adds `c` to the front of the first cell. */
  function Cons(c: char, cells: seq<string>): (r: seq<string>)
    requires |cells| >= 1
    ensures |r| == |cells|
  {
    [[c] + cells[0]] + cells[1..]
  }

  /**
   * The untrimmed cells of `s` when scanning starts in quoted state `inQ` with an empty
   * current cell: the state machine of the `split` helper, read from the front.
   */
  function RawCells(s: string, inQ: bool): (r: seq<string>)
    ensures |r| >= 1
    decreases |s|
  {
    if s == [] then [[]]
    else if s[0] == '"' then
      if inQ && |s| > 1 && s[1] == '"' then Cons('"', RawCells(s[2..], true))
      else RawCells(s[1..], !inQ)
    else if s[0] == ',' && !inQ then [[]] + RawCells(s[1..], false)
    else Cons(s[0], RawCells(s[1..], inQ))
  }

  /** Every cell trimmed (`cells.map(x => x.trim())`). */
  function TrimAll(cells: seq<string>): seq<string> {
    seq(|cells|, j requires 0 <= j < |cells| => Trim(cells[j]))
  }

  /** The cells of one line. */
  function Cells(line: string): seq<string> {
    TrimAll(RawCells(line, false))
  }

  /** Finished cells, the current cell, and the cells the rest of the line will yield. */
  function Glue(done: seq<string>, cur: string, rest: seq<string>): seq<string>
    requires |rest| >= 1
  {
    done + [cur + rest[0]] + rest[1..]
  }

  lemma GlueCons(done: seq<string>, cur: string, c: char, after: seq<string>)
    requires |after| >= 1
    ensures Glue(done, cur, Cons(c, after)) == Glue(done, cur + [c], after)
  {
    assert cur + ([c] + after[0]) == (cur + [c]) + after[0];
  }

  lemma GlueSeparator(done: seq<string>, cur: string, after: seq<string>)
    requires |after| >= 1
    ensures Glue(done, cur, [[]] + after) == Glue(done + [cur], [], after)
  {
    assert cur + [] == cur;
    assert [] + after[0] == after[0];
    assert [after[0]] + after[1..] == after;
  }

  /** The `split` helper of parseCsv: one left-to-right pass that skips past `""`. */
  method SplitCells(line: string) returns (cells: seq<string>)
    ensures cells == Cells(line)
  {
    var done: seq<string> := [];
    var cur: string := [];
    var inQ := false;
    var i := 0;
    assert line[0..] == line;
    ghost var whole := RawCells(line, false);
    assert [] + whole[0] == whole[0];
    assert [whole[0]] + whole[1..] == whole;
    while i < |line|
      invariant 0 <= i <= |line|
      invariant Glue(done, cur, RawCells(line[i..], inQ)) == RawCells(line, false)
    {
      var c := line[i];
      if c == '"' {
        if inQ && i + 1 < |line| && line[i + 1] == '"' {
          assert line[i..][2..] == line[i + 2..];
          GlueCons(done, cur, '"', RawCells(line[i + 2..], true));
          cur := cur + ['"'];
          i := i + 1;
        } else {
          assert line[i..][1..] == line[i + 1..];
          inQ := !inQ;
        }
      } else if c == ',' && !inQ {
        assert line[i..][1..] == line[i + 1..];
        GlueSeparator(done, cur, RawCells(line[i + 1..], false));
        done := done + [cur];
        cur := [];
      } else {
        assert line[i..][1..] == line[i + 1..];
        GlueCons(done, cur, c, RawCells(line[i + 1..], inQ));
        cur := cur + [c];
      }
      i := i + 1;
    }
    assert line[i..] == [];
    assert cur + [] == cur;
    done := done + [cur];
    cells := TrimAll(done);
  }

  // ---------------------------------------------------------------------------------
  // The writer side: quoting a field and joining fields, the inverse of the scanner.
  // ---------------------------------------------------------------------------------

  /** Every quote character doubled. */
  function DoubleQuotes(f: string): string {
    if f == [] then [] else (if f[0] == '"' then "\"\"" else [f[0]]) + DoubleQuotes(f[1..])
  }

  /** A field written in quotes, as RFC 4180 writes a field holding commas or quotes. */
  function Quote(f: string): string {
    "\"" + DoubleQuotes(f) + "\""
  }

  /** A row of fields, each quoted, separated by commas. */
  function EncodeRow(fields: seq<string>): string
    requires |fields| >= 1
  {
    if |fields| == 1 then Quote(fields[0]) else Quote(fields[0]) + "," + EncodeRow(fields[1..])
  }

  /** Adds `f` to the front of the first cell. */
  function PrependText(f: string, cells: seq<string>): seq<string>
    requires |cells| >= 1
  {
    [f + cells[0]] + cells[1..]
  }

  lemma RawCellsQuotePair(t: string)
    ensures RawCells("\"\"" + t, true) == Cons('"', RawCells(t, true))
  {
    assert ("\"\"" + t)[2..] == t;
  }

  lemma RawCellsPlain(c: char, t: string, inQ: bool)
    requires c != '"' && (c != ',' || inQ)
    ensures RawCells([c] + t, inQ) == Cons(c, RawCells(t, inQ))
  {
    assert ([c] + t)[1..] == t;
  }

  lemma RawCellsClosingQuote(rest: string)
    requires rest == [] || rest[0] != '"'
    ensures RawCells("\"" + rest, true) == RawCells(rest, false)
  {
    assert ("\"" + rest)[1..] == rest;
  }

  lemma ConsPrepend(c: char, f: string, cells: seq<string>)
    requires |cells| >= 1
    ensures Cons(c, PrependText(f, cells)) == PrependText([c] + f, cells)
  {
    assert [c] + (f + cells[0]) == ([c] + f) + cells[0];
  }

  /** The closing quote of an empty quoted field ends the quotes and adds nothing. */
  lemma QuotedBodyEmpty(rest: string)
    requires rest == [] || rest[0] != '"'
    ensures RawCells(DoubleQuotes([]) + "\"" + rest, true) == PrependText([], RawCells(rest, false))
  {
    var r := RawCells(rest, false);
    assert DoubleQuotes([]) + "\"" + rest == "\"" + rest;
    RawCellsClosingQuote(rest);
    assert [] + r[0] == r[0];
    assert [r[0]] + r[1..] == r;
  }

  /** Doubling the quotes of a non-empty body starts with its first character, doubled if a quote. */
  lemma DoubleQuotesHead(f: string, rest: string)
    requires f != []
    ensures DoubleQuotes(f) + "\"" + rest
      == (if f[0] == '"' then "\"\"" else [f[0]]) + (DoubleQuotes(f[1..]) + "\"" + rest)
  {
  }

  /** Inside quotes, a character, doubled if it is a quote, is read back as itself. */
  lemma RawCellsHead(c: char, tail: string)
    ensures RawCells((if c == '"' then "\"\"" else [c]) + tail, true) == Cons(c, RawCells(tail, true))
  {
    if c == '"' {
      RawCellsQuotePair(tail);
    } else {
      RawCellsPlain(c, tail, true);
    }
  }

  lemma ConsPrependFirst(f: string, cells: seq<string>)
    requires f != [] && |cells| >= 1
    ensures Cons(f[0], PrependText(f[1..], cells)) == PrependText(f, cells)
  {
    ConsPrepend(f[0], f[1..], cells);
    assert [f[0]] + f[1..] == f;
  }

  /** One more character of the field body, doubled if it is a quote, is read back as itself. */
  lemma QuotedBodyStep(f: string, rest: string)
    requires f != []
    requires RawCells(DoubleQuotes(f[1..]) + "\"" + rest, true) == PrependText(f[1..], RawCells(rest, false))
    ensures RawCells(DoubleQuotes(f) + "\"" + rest, true) == PrependText(f, RawCells(rest, false))
  {
    DoubleQuotesHead(f, rest);
    RawCellsHead(f[0], DoubleQuotes(f[1..]) + "\"" + rest);
    ConsPrependFirst(f, RawCells(rest, false));
  }

  /**
   * Inside quotes, a doubled field body followed by the closing quote yields the field
   * itself, and scanning goes on unquoted.
   */
  lemma {:induction false} QuotedBody(f: string, rest: string)
    requires rest == [] || rest[0] != '"'
    ensures RawCells(DoubleQuotes(f) + "\"" + rest, true) == PrependText(f, RawCells(rest, false))
  {
    if f == [] {
      QuotedBodyEmpty(rest);
    } else {
      QuotedBody(f[1..], rest);
      QuotedBodyStep(f, rest);
    }
  }

  lemma RawCellsComma(t: string)
    ensures RawCells("," + t, false) == [[]] + RawCells(t, false)
  {
    assert ("," + t)[1..] == t;
  }

  /** Reading back a written row gives the fields that were written, whatever they hold. */
  lemma {:induction false} RawCellsOfEncodeRow(fields: seq<string>)
    requires |fields| >= 1
    ensures RawCells(EncodeRow(fields), false) == fields
  {
    var f := fields[0];
    var tail := if |fields| == 1 then "" else "," + EncodeRow(fields[1..]);
    var s := EncodeRow(fields);
    assert s == "\"" + (DoubleQuotes(f) + "\"" + tail);
    assert s[1..] == DoubleQuotes(f) + "\"" + tail;
    QuotedBody(f, tail);
    assert f + [] == f;
    if |fields| > 1 {
      RawCellsOfEncodeRow(fields[1..]);
      RawCellsComma(EncodeRow(fields[1..]));
      assert fields == [f] + fields[1..];
    }
  }

  /** The `split` helper inverts the writer on fields that carry no surrounding white space. */
  lemma SplitEncodeRoundTrip(fields: seq<string>)
    requires |fields| >= 1
    requires forall j :: 0 <= j < |fields| ==> Trimmed(fields[j])
    ensures Cells(EncodeRow(fields)) == fields
  {
    RawCellsOfEncodeRow(fields);
    forall j | 0 <= j < |fields|
      ensures Trim(fields[j]) == fields[j]
    {
      TrimOfTrimmed(fields[j]);
    }
  }

  /** Without quote characters a line splits exactly like `line.split(",")`. */
  lemma {:induction false} UnquotedIsPlainSplit(s: string)
    requires '"' !in s
    ensures RawCells(s, false) == SplitOn(s, ',')
  {
    if s != [] {
      assert s[0] in s;
      assert forall c :: c in s[1..] ==> c in s;
      UnquotedIsPlainSplit(s[1..]);
    }
  }

  /** The number of occurrences of `c` in `s`. */
  function Count(s: string, c: char): nat {
    if s == [] then 0 else (if s[0] == c then 1 else 0) + Count(s[1..], c)
  }

  /** `split(sep)` yields one more piece than there are separators. */
  lemma {:induction false} SplitOnCount(s: string, sep: char)
    ensures |SplitOn(s, sep)| == Count(s, sep) + 1
  {
    if s != [] {
      SplitOnCount(s[1..], sep);
    }
  }

  /** A line without quotes has one cell more than it has commas. */
  lemma UnquotedCellCount(line: string)
    requires '"' !in line
    ensures |Cells(line)| == Count(line, ',') + 1
  {
    UnquotedIsPlainSplit(line);
    SplitOnCount(line, ',');
  }

  /**
   * The commas of `s` that lie outside quotes, where the quoted state simply flips at
   * every quote character: a doubled quote inside a quoted cell flips it twice.
   */
  function CommasOutside(s: string, inQ: bool): nat
    decreases |s|
  {
    if s == [] then 0
    else (if s[0] == ',' && !inQ then 1 else 0) + CommasOutside(s[1..], if s[0] == '"' then !inQ else inQ)
  }

  /** Every line, quoted or not, has one more cell than it has commas outside quotes. */
  lemma {:induction false} RawCellCount(s: string, inQ: bool)
    ensures |RawCells(s, inQ)| == CommasOutside(s, inQ) + 1
    decreases |s|
  {
    if s != [] {
      if s[0] == '"' && inQ && |s| > 1 && s[1] == '"' {
        RawCellCount(s[2..], true);
        assert s[1..][1..] == s[2..];
        assert CommasOutside(s[1..], false) == CommasOutside(s[2..], true);
      } else if s[0] == '"' {
        RawCellCount(s[1..], !inQ);
      } else {
        RawCellCount(s[1..], if s[0] == ',' && !inQ then false else inQ);
      }
    }
  }

  /** The cells of a line: one more than its commas outside quotes. */
  lemma CellCount(line: string)
    ensures |Cells(line)| == CommasOutside(line, false) + 1
  {
    RawCellCount(line, false);
  }

  // ---------------------------------------------------------------------------------
  // Lines and records.
  // ---------------------------------------------------------------------------------

  /** `lines.filter(l => l.trim().length > 0)`. */
  function NonBlank(lines: seq<string>): seq<string> {
    if lines == [] then []
    else (if Trim(lines[0]) == [] then [] else [lines[0]]) + NonBlank(lines[1..])
  }

  /** No line that survives the filter is blank. */
  lemma {:induction false} NonBlankKeepsNoBlank(lines: seq<string>)
    ensures forall i :: 0 <= i < |NonBlank(lines)| ==> Trim(NonBlank(lines)[i]) != []
    ensures forall i :: 0 <= i < |lines| && Trim(lines[i]) != [] ==> lines[i] in NonBlank(lines)
  {
    if lines != [] {
      NonBlankKeepsNoBlank(lines[1..]);
      forall i | 0 < i < |lines| && Trim(lines[i]) != []
        ensures lines[i] in NonBlank(lines)
      {
        assert lines[i] == lines[1..][i - 1];
      }
    }
  }

  /** The non-blank lines of the text, in order. */
  function CsvLines(text: string): seq<string> {
    NonBlank(SplitOn(RemoveChar(text, '\r'), '\n'))
  }

  /** `cells[i] ?? ""`: a missing trailing cell reads as the empty string. */
  function CellAt(cells: seq<string>, i: nat): string {
    if i < |cells| then cells[i] else ""
  }

  /**
   * `header.forEach((h, i) => row[h] = cells[i] ?? "")`: assignments run in header order,
   * so for a repeated column name the last one wins.
   */
  function MakeRecord(header: seq<string>, cells: seq<string>): (row: Record)
    decreases |header|
  {
    if header == [] then map[]
    else MakeRecord(header[..|header| - 1], cells)[header[|header| - 1] := CellAt(cells, |header| - 1)]
  }

  /** No later column of `header` has the name of column `j`. */
  predicate IsLastOfName(header: seq<string>, j: int) {
    0 <= j < |header| && forall k :: j < k < |header| ==> header[k] != header[j]
  }

  /** The column names of a header line. */
  function Names(header: seq<string>): set<string> {
    set j | 0 <= j < |header| :: header[j]
  }

  /** A record has exactly the header's names as keys. */
  lemma {:induction false} MakeRecordKeys(header: seq<string>, cells: seq<string>)
    ensures MakeRecord(header, cells).Keys == Names(header)
  {
    if header != [] {
      var n := |header| - 1;
      var init := header[..n];
      MakeRecordKeys(init, cells);
      assert forall j :: 0 <= j < n ==> init[j] == header[j];
      assert Names(header) == Names(init) + {header[n]};
    }
  }

  /**
   * Under each name a record holds the cell of the last column of that name (the empty
   * string when the line is short).
   */
  lemma {:induction false} MakeRecordValues(header: seq<string>, cells: seq<string>)
    ensures forall j :: IsLastOfName(header, j) ==>
      header[j] in MakeRecord(header, cells) && MakeRecord(header, cells)[header[j]] == CellAt(cells, j)
  {
    if header != [] {
      var n := |header| - 1;
      var init := header[..n];
      MakeRecordValues(init, cells);
      forall j | IsLastOfName(header, j)
        ensures header[j] in MakeRecord(header, cells) && MakeRecord(header, cells)[header[j]] == CellAt(cells, j)
      {
        if j < n {
          assert header[n] != header[j];
          assert IsLastOfName(init, j);
        }
      }
    }
  }

  /** One record per line of `rows`, each under the column names `header`. */
  function RecordsUnder(header: seq<string>, rows: seq<string>): (r: seq<Record>)
    ensures |r| == |rows|
  {
    if rows == [] then [] else [MakeRecord(header, Cells(rows[0]))] + RecordsUnder(header, rows[1..])
  }

  /** The records of the lines of a CSV text: the first line names the columns. */
  function RecordsOf(lines: seq<string>): seq<Record> {
    if lines == [] then [] else RecordsUnder(Cells(lines[0]), lines[1..])
  }

  /** The records of a CSV text: one per non-blank line after the header line. */
  function CsvRecords(text: string): seq<Record> {
    RecordsOf(CsvLines(text))
  }

  /** One more line adds its record at the end. */
  lemma {:induction false} RecordsUnderSnoc(header: seq<string>, rows: seq<string>, line: string)
    ensures RecordsUnder(header, rows + [line]) == RecordsUnder(header, rows) + [MakeRecord(header, Cells(line))]
  {
    if rows != [] {
      assert (rows + [line])[1..] == rows[1..] + [line];
      RecordsUnderSnoc(header, rows[1..], line);
    } else {
      assert RecordsUnder(header, [line]) == [MakeRecord(header, Cells(line))] + RecordsUnder(header, []);
    }
  }

  /** Record `i` is the record of row `i`. */
  lemma {:induction false} RecordsUnderAt(header: seq<string>, rows: seq<string>, i: nat)
    requires i < |rows|
    ensures RecordsUnder(header, rows)[i] == MakeRecord(header, Cells(rows[i]))
  {
    if i > 0 {
      RecordsUnderAt(header, rows[1..], i - 1);
    }
  }

  /** parseCsv: the header line is split once, then every later line. */
  method ParseCsv(text: string) returns (records: seq<Record>)
    ensures records == CsvRecords(text)
  {
    var lines := CsvLines(text);
    records := ParseLines(lines);
  }

  /** The records of already split lines. */
  method ParseLines(lines: seq<string>) returns (records: seq<Record>)
    ensures records == RecordsOf(lines)
  {
    if |lines| == 0 {
      return [];
    }
    var header := SplitCells(lines[0]);
    records := [];
    var j := 1;
    while j < |lines|
      invariant 1 <= j <= |lines|
      invariant records == RecordsUnder(header, lines[1..j])
    {
      var cells := SplitCells(lines[j]);
      assert records + [MakeRecord(header, cells)] == RecordsUnder(header, lines[1..j + 1]) by {
        RecordsUnderSnoc(header, lines[1..j], lines[j]);
        assert lines[1..j + 1] == lines[1..j] + [lines[j]];
      }
      records := records + [MakeRecord(header, cells)];
      j := j + 1;
    }
    assert lines[1..j] == lines[1..];
  }

  /** A record has exactly the header's names as keys, each holding its last column's cell. */
  lemma MakeRecordShape(header: seq<string>, cells: seq<string>)
    ensures var row := MakeRecord(header, cells);
      row.Keys == Names(header)
      && forall j :: IsLastOfName(header, j) ==> header[j] in row && row[header[j]] == CellAt(cells, j)
  {
    MakeRecordKeys(header, cells);
    MakeRecordValues(header, cells);
  }

  lemma RecordsOfAt(lines: seq<string>, i: nat)
    requires lines != [] && i < |lines| - 1
    ensures |RecordsOf(lines)| == |lines| - 1
    ensures RecordsOf(lines)[i] == MakeRecord(Cells(lines[0]), Cells(lines[i + 1]))
  {
    RecordsUnderAt(Cells(lines[0]), lines[1..], i);
  }

  /** Record `i` of a list of lines maps the header's names to the cells of line `i + 1`. */
  lemma RecordsOfShape(lines: seq<string>, i: nat)
    requires lines != [] && i < |lines| - 1
    ensures |RecordsOf(lines)| == |lines| - 1
    ensures var header := Cells(lines[0]);
      RecordsOf(lines)[i].Keys == Names(header)
      && forall j :: IsLastOfName(header, j) ==>
           header[j] in RecordsOf(lines)[i]
           && RecordsOf(lines)[i][header[j]] == CellAt(Cells(lines[i + 1]), j)
  {
    RecordsOfAt(lines, i);
    MakeRecordShape(Cells(lines[0]), Cells(lines[i + 1]));
  }

  /**
   * The shape of parseCsv's output: one record per non-blank line after the header,
   * each keyed by exactly the header's column names, with "" for the cells a short
   * line lacks.
   */
  lemma RecordsShape(text: string, i: nat)
    requires CsvLines(text) != [] && i < |CsvLines(text)| - 1
    ensures |CsvRecords(text)| == |CsvLines(text)| - 1
    ensures var header := Cells(CsvLines(text)[0]);
      CsvRecords(text)[i].Keys == Names(header)
      && forall j :: IsLastOfName(header, j) ==>
           header[j] in CsvRecords(text)[i]
           && CsvRecords(text)[i][header[j]] == CellAt(Cells(CsvLines(text)[i + 1]), j)
  {
    RecordsOfShape(CsvLines(text), i);
  }

  /** Empty input yields no records. */
  lemma EmptyText()
    ensures CsvRecords("") == []
  {
    assert RemoveChar("", '\r') == "";
    assert SplitOn("", '\n') == [""];
    assert Trim("") == "";
  }

  lemma {:induction false} RemoveAbsent(s: string, c: char)
    requires c !in s
    ensures RemoveChar(s, c) == s
  {
    if s != [] {
      assert s[0] in s;
      assert forall x :: x in s[1..] ==> x in s;
      RemoveAbsent(s[1..], c);
    }
  }

  lemma {:induction false} SplitOnAbsent(s: string, sep: char)
    requires sep !in s
    ensures SplitOn(s, sep) == [s]
  {
    if s != [] {
      assert s[0] in s;
      assert forall x :: x in s[1..] ==> x in s;
      SplitOnAbsent(s[1..], sep);
      assert [s[0]] + s[1..] == s;
    }
  }

  lemma {:induction false} SplitOnSeparated(a: string, sep: char, b: string)
    requires sep !in a
    ensures SplitOn(a + [sep] + b, sep) == [a] + SplitOn(b, sep)
  {
    if a == [] {
      assert a + [sep] + b == [sep] + b;
      assert ([sep] + b)[1..] == b;
    } else {
      assert a[0] in a;
      assert forall x :: x in a[1..] ==> x in a;
      SplitOnSeparated(a[1..], sep, b);
      assert (a + [sep] + b)[1..] == a[1..] + [sep] + b;
      assert [a[0]] + a[1..] == a;
    }
  }

  /** A header line and one data line, separated by a line feed, give one record. */
  lemma TwoLines(header: string, line: string)
    requires '\n' !in header && '\r' !in header && '\n' !in line && '\r' !in line
    requires Trim(header) != [] && Trim(line) != []
    ensures CsvLines(header + "\n" + line) == [header, line]
    ensures |CsvRecords(header + "\n" + line)| == 1
  {
    var text := header + "\n" + line;
    assert '\r' !in text;
    RemoveAbsent(text, '\r');
    SplitOnSeparated(header, '\n', line);
    SplitOnAbsent(line, '\n');
    assert NonBlank([line]) == [line];
    assert [header, line][1..] == [line];
  }

  // ---------------------------------------------------------------------------------
  // The copy in nearby.js, as written: its regular expression and split text hold a
  // doubled backslash, so it deletes the two characters backslash-r and splits on the
  // two characters backslash-n.
  // ---------------------------------------------------------------------------------

  /** `text.replace(/\\r/g, "")`: every backslash-r pair deleted, left to right. */
  function RemoveBackslashR(s: string): string {
    if s == [] then []
    else if |s| >= 2 && s[0] == '\\' && s[1] == 'r' then RemoveBackslashR(s[2..])
    else [s[0]] + RemoveBackslashR(s[1..])
  }

  /** `text.split("\\n")`: pieces separated by the two characters backslash-n. */
  function SplitOnBackslashN(s: string): (r: seq<string>)
    ensures |r| >= 1
  {
    if s == [] then [[]]
    else if |s| >= 2 && s[0] == '\\' && s[1] == 'n' then [[]] + SplitOnBackslashN(s[2..])
    else Cons(s[0], SplitOnBackslashN(s[1..]))
  }

  /** The lines of the nearby.js copy of parseCsv. */
  function NearbyCsvLines(text: string): seq<string> {
    NonBlank(SplitOnBackslashN(RemoveBackslashR(text)))
  }

  function NearbyCsvRecords(text: string): seq<Record> {
    RecordsOf(NearbyCsvLines(text))
  }

  lemma {:induction false} NoBackslashOnePiece(s: string)
    requires '\\' !in s
    ensures RemoveBackslashR(s) == s && SplitOnBackslashN(s) == [s]
  {
    if s != [] {
      assert s[0] in s;
      assert forall x :: x in s[1..] ==> x in s;
      NoBackslashOnePiece(s[1..]);
      assert [s[0]] + s[1..] == s;
    }
  }

  /** Without a backslash in the text, the nearby.js copy sees at most a header line, so no records. */
  lemma NearbyCsvNoRecords(text: string)
    requires '\\' !in text
    ensures NearbyCsvRecords(text) == []
  {
    NoBackslashOnePiece(text);
    assert |NonBlank([text])| <= 1;
  }

  /**
   * A two-line sheet: the line-feed split yields its one record, the nearby.js split
   * yields none.
   */
  lemma NearbyCsvDropsRows(header: string, line: string)
    requires '\n' !in header && '\r' !in header && '\n' !in line && '\r' !in line
    requires '\\' !in header && '\\' !in line
    requires Trim(header) != [] && Trim(line) != []
    ensures |CsvRecords(header + "\n" + line)| == 1
    ensures NearbyCsvRecords(header + "\n" + line) == []
  {
    TwoLines(header, line);
    assert '\\' !in header + "\n" + line;
    NearbyCsvNoRecords(header + "\n" + line);
  }
}
