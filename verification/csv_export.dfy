/**
 * The invoice table's CSV export: a header line, then one line per invoice
 * whose six cells are each wrapped in double quotes, lines joined by "\n".
 * The date and amount cells are taken as already rendered text (the German
 * date format and two-decimal rounding are outside the model). Alongside,
 * a reader for one record in the quoted-field syntax of RFC 4180, against
 * which the export is checked: it reads back every cell that holds no
 * double quote, and never reads one that does back in its place, since the
 * export does not double embedded quotes as section 2 rule 7 of RFC 4180
 * requires.
 */
module CsvExport {
  import opened Ledger
  import opened Text

  /** The six cells of one table row, as rendered for the export. */
  datatype CsvInvoice = CsvInvoice(vendorName: string, invoiceNumber: string, date: string, status: string, amount: string, currency: string)

  const HEADERS: seq<string> := ["Vendor", "Invoice #", "Date", "Status", "Amount", "Currency"]

  function Cells(inv: CsvInvoice): (cells: seq<string>)
    ensures |cells| == |HEADERS|
  {
    [inv.vendorName, inv.invoiceNumber, inv.date, inv.status, inv.amount, inv.currency]
  }

  /** `"${cell}"`: the cell between double quotes, with nothing escaped. */
  function Quote(cell: string): (q: string)
    ensures |q| == |cell| + 2 && q[0] == '"' && q[|q| - 1] == '"' && q[1..|q| - 1] == cell
  {
    "\"" + cell + "\""
  }

  function QuotedCells(cells: seq<string>): (qs: seq<string>)
    ensures |qs| == |cells|
    ensures forall i :: 0 <= i < |cells| ==> qs[i] == Quote(cells[i])
  {
    seq(|cells|, i requires 0 <= i < |cells| => Quote(cells[i]))
  }

  /** One data line: the quoted cells joined by commas. */
  function DataLine(inv: CsvInvoice): string {
    Join(QuotedCells(Cells(inv)), ",")
  }

  /** The header line: the header names joined by commas, unquoted. */
  function HeaderLine(): string {
    Join(HEADERS, ",")
  }

  /** `exportToCSV`: nothing for an empty list; otherwise the header line and one data line per invoice, in order. */
  function ExportToCsv(invoices: seq<CsvInvoice>): (r: Option<string>)
    ensures r == None <==> invoices == []
  {
    if invoices == [] then None
    else Some(Join([HeaderLine()] + seq(|invoices|, i requires 0 <= i < |invoices| => DataLine(invoices[i])), "\n"))
  }

  /** The reader: the text up to the closing quote of a quoted field, with `""` read as one quote. */
  function ReadQuoted(s: string, acc: string): (r: Option<(string, string)>)
    ensures r.Some? ==> |r.value.1| < |s|
    decreases |s|
  {
    if s == [] then None
    else if s[0] == '"' then
      if |s| >= 2 && s[1] == '"' then ReadQuoted(s[2..], acc + ['"'])
      else Some((acc, s[1..]))
    else ReadQuoted(s[1..], acc + [s[0]])
  }

  /** An unquoted field: the text up to the next comma, which may not hold a double quote. */
  function ReadPlain(s: string): (r: Option<(string, string)>)
    ensures r.Some? ==> |r.value.1| <= |s| && (r.value.1 == [] || r.value.1[0] == ',')
    decreases |s|
  {
    if s == [] || s[0] == ',' then Some(([], s))
    else if s[0] == '"' then None
    else
      match ReadPlain(s[1..])
      case None => None
      case Some((field, rest)) => Some(([s[0]] + field, rest))
  }

  /** One field, quoted or not, and the text after it. */
  function ReadField(s: string): (r: Option<(string, string)>)
    ensures r.Some? ==> |r.value.1| <= |s|
  {
    if s != [] && s[0] == '"' then ReadQuoted(s[1..], []) else ReadPlain(s)
  }

  /** The fields of one record: fields separated by commas, and nothing after the last one. */
  function ReadRecord(s: string): Option<seq<string>>
    decreases |s|
  {
    match ReadField(s)
    case None => None
    case Some((field, rest)) =>
      if rest == [] then Some([field])
      else if rest[0] != ',' then None
      else
        match ReadRecord(rest[1..])
        case None => None
        case Some(fields) => Some([field] + fields)
  }

  /** A quoted cell with no quote inside is read back up to its closing quote. */
  lemma {:induction false} ReadQuotedBack(cell: string, rest: string, acc: string)
    requires Free(cell, '"')
    requires rest == [] || rest[0] != '"'
    ensures ReadQuoted(cell + "\"" + rest, acc) == Some((acc + cell, rest))
    decreases |cell|
  {
    if cell == [] {
      var s := cell + "\"" + rest;
      assert s == ['"'] + rest;
      assert s[1..] == rest;
      assert acc + cell == acc;
    } else {
      ReadQuotedBack(cell[1..], rest, acc + [cell[0]]);
      assert (cell + "\"" + rest)[1..] == cell[1..] + "\"" + rest;
      assert acc + [cell[0]] + cell[1..] == acc + cell;
    }
  }

  /** A cell with no comma and no quote is read back as an unquoted field. */
  lemma {:induction false} ReadPlainBack(cell: string, rest: string)
    requires Free(cell, ',') && Free(cell, '"')
    requires rest == [] || rest[0] == ','
    ensures ReadPlain(cell + rest) == Some((cell, rest))
    decreases |cell|
  {
    if cell == [] {
      assert cell + rest == rest;
    } else {
      ReadPlainBack(cell[1..], rest);
      assert (cell + rest)[1..] == cell[1..] + rest;
      assert [cell[0]] + cell[1..] == cell;
    }
  }

  /** A quoted cell with no quote inside, followed by the end or a comma, is read as one field. */
  lemma QuotedField(cell: string, rest: string)
    requires Free(cell, '"')
    requires rest == [] || rest[0] == ','
    ensures ReadField(Quote(cell) + rest) == Some((cell, rest))
  {
    var s := Quote(cell) + rest;
    assert s[0] == '"';
    assert s[1..] == cell + "\"" + rest;
    ReadQuotedBack(cell, rest, []);
    assert [] + cell == cell;
  }

  /** A cell with no comma and no quote, followed by the end or a comma, is read as one field. */
  lemma PlainField(cell: string, rest: string)
    requires Free(cell, ',') && Free(cell, '"')
    requires rest == [] || rest[0] == ','
    ensures ReadField(cell + rest) == Some((cell, rest))
  {
    ReadPlainBack(cell, rest);
    if cell != [] {
      assert (cell + rest)[0] == cell[0];
    } else {
      assert cell + rest == rest;
    }
  }

  /** Reading a record whose first field is followed by a comma and more text. */
  lemma ReadRecordStep(s: string, field: string, rest: string)
    requires ReadField(s) == Some((field, [','] + rest))
    ensures ReadRecord(s) == (match ReadRecord(rest) case None => None case Some(fields) => Some([field] + fields))
  {
    assert ([','] + rest)[1..] == rest;
  }

  /** Quoted cells without quotes inside, joined by commas, are read back as the cells, commas inside cells included. */
  lemma {:induction false} QuotedRecordBack(cells: seq<string>)
    requires cells != []
    requires forall i :: 0 <= i < |cells| ==> Free(cells[i], '"')
    ensures ReadRecord(Join(QuotedCells(cells), ",")) == Some(cells)
    decreases |cells|
  {
    var qs := QuotedCells(cells);
    if |cells| == 1 {
      QuotedField(cells[0], []);
      assert qs[0] + [] == qs[0];
      assert Join(qs, ",") == qs[0];
      assert ReadRecord(qs[0]) == Some([cells[0]]);
      assert [cells[0]] == cells;
    } else {
      QuotedRecordBack(cells[1..]);
      assert QuotedCells(cells[1..]) == qs[1..];
      var tail := Join(qs[1..], ",");
      QuotedField(cells[0], [','] + tail);
      assert qs[0] + "," + tail == qs[0] + ([','] + tail);
      ReadRecordStep(qs[0] + "," + tail, cells[0], tail);
      assert [cells[0]] + cells[1..] == cells;
    }
  }

  /** Unquoted cells with no comma and no quote, joined by commas, are read back as the cells. */
  lemma {:induction false} PlainRecordBack(cells: seq<string>)
    requires cells != []
    requires forall i :: 0 <= i < |cells| ==> Free(cells[i], ',') && Free(cells[i], '"')
    ensures ReadRecord(Join(cells, ",")) == Some(cells)
    decreases |cells|
  {
    if |cells| == 1 {
      PlainField(cells[0], []);
      assert cells[0] + [] == cells[0];
      assert Join(cells, ",") == cells[0];
      assert ReadRecord(cells[0]) == Some([cells[0]]);
      assert [cells[0]] == cells;
    } else {
      PlainRecordBack(cells[1..]);
      var tail := Join(cells[1..], ",");
      PlainField(cells[0], [','] + tail);
      assert cells[0] + "," + tail == cells[0] + ([','] + tail);
      ReadRecordStep(cells[0] + "," + tail, cells[0], tail);
      assert [cells[0]] + cells[1..] == cells;
    }
  }

  /** No cell of the row holds the character c. */
  predicate CellsFree(inv: CsvInvoice, c: char) {
    forall i :: 0 <= i < |Cells(inv)| ==> Free(Cells(inv)[i], c)
  }

  /** The header names hold no comma, quote or line break. */
  lemma HeadersFree()
    ensures forall i :: 0 <= i < |HEADERS| ==> Free(HEADERS[i], ',') && Free(HEADERS[i], '"') && Free(HEADERS[i], '\n')
  {
  }

  /** A data line holds a line break only where one of its cells does. */
  lemma DataLineFree(inv: CsvInvoice)
    requires CellsFree(inv, '\n')
    ensures Free(DataLine(inv), '\n')
  {
    var qs := QuotedCells(Cells(inv));
    forall i | 0 <= i < |qs|
      ensures Free(qs[i], '\n')
    {
      var c := Cells(inv)[i];
      assert qs[i] == ['"'] + c + ['"'];
    }
    JoinFree(qs, ",", '\n');
  }

  /**
   * The export's lines: when no cell holds a line break, splitting the text at
   * line breaks gives the header line followed by one data line per invoice,
   * in order.
   */
  lemma ExportLines(invoices: seq<CsvInvoice>)
    requires invoices != []
    requires forall i :: 0 <= i < |invoices| ==> CellsFree(invoices[i], '\n')
    ensures var lines := Split(ExportToCsv(invoices).value, '\n');
      && |lines| == |invoices| + 1
      && lines[0] == HeaderLine()
      && forall i :: 0 <= i < |invoices| ==> lines[i + 1] == DataLine(invoices[i])
  {
    var lines := [HeaderLine()] + seq(|invoices|, i requires 0 <= i < |invoices| => DataLine(invoices[i]));
    HeadersFree();
    JoinFree(HEADERS, ",", '\n');
    forall i | 0 <= i < |lines|
      ensures Free(lines[i], '\n')
    {
      if i > 0 {
        DataLineFree(invoices[i - 1]);
      }
    }
    SplitJoin(lines, '\n');
  }

  /**
   * The export read back: when no cell holds a line break or a double quote,
   * the first line reads back as the header names and line i + 1 as the six
   * cells of invoice i.
   */
  lemma ExportReadsBack(invoices: seq<CsvInvoice>)
    requires invoices != []
    requires forall i :: 0 <= i < |invoices| ==> CellsFree(invoices[i], '\n') && CellsFree(invoices[i], '"')
    ensures var lines := Split(ExportToCsv(invoices).value, '\n');
      && |lines| == |invoices| + 1
      && ReadRecord(lines[0]) == Some(HEADERS)
      && forall i :: 0 <= i < |invoices| ==> ReadRecord(lines[i + 1]) == Some(Cells(invoices[i]))
  {
    forall i | 0 <= i < |invoices|
      ensures CellsFree(invoices[i], '\n')
    {
    }
    ExportLines(invoices);
    HeaderReadsBack();
    DataLinesReadBack(invoices);
    var lines := Split(ExportToCsv(invoices).value, '\n');
    assert ReadRecord(lines[0]) == Some(HEADERS);
    forall i | 0 <= i < |invoices|
      ensures ReadRecord(lines[i + 1]) == Some(Cells(invoices[i]))
    {
      assert lines[i + 1] == DataLine(invoices[i]);
    }
  }

  /** The header line reads back as the header names. */
  lemma HeaderReadsBack()
    ensures ReadRecord(HeaderLine()) == Some(HEADERS)
  {
    HeadersFree();
    PlainRecordBack(HEADERS);
  }

  /** Each data line of quote-free cells reads back as its invoice's cells. */
  lemma DataLinesReadBack(invoices: seq<CsvInvoice>)
    requires forall i :: 0 <= i < |invoices| ==> CellsFree(invoices[i], '"')
    ensures forall i :: 0 <= i < |invoices| ==> ReadRecord(DataLine(invoices[i])) == Some(Cells(invoices[i]))
  {
    forall i | 0 <= i < |invoices|
      ensures ReadRecord(DataLine(invoices[i])) == Some(Cells(invoices[i]))
    {
      QuotedRecordBack(Cells(invoices[i]));
    }
  }

  /** The reader's text grows by at most one character for each character it consumes, and it consumes the closing quote too. */
  lemma {:induction false} ReadQuotedGrowth(s: string, acc: string)
    ensures var r := ReadQuoted(s, acc);
      r.Some? ==> |r.value.0| - |acc| + 1 <= |s| - |r.value.1|
    decreases |s|
  {
    if s != [] && s[0] == '"' {
      if |s| >= 2 && s[1] == '"' {
        ReadQuotedGrowth(s[2..], acc + ['"']);
      }
    } else if s != [] {
      ReadQuotedGrowth(s[1..], acc + [s[0]]);
    }
  }

  /** A quoted cell read back in its place, resuming right after its closing quote, holds no quote. */
  lemma {:induction false} InPlaceReadIsQuoteFree(cell: string, rest: string, acc: string)
    requires ReadQuoted(cell + "\"" + rest, acc) == Some((acc + cell, rest))
    ensures Free(cell, '"')
    decreases |cell|
  {
    if cell != [] {
      var s := cell + "\"" + rest;
      assert s[0] == cell[0];
      if cell[0] == '"' {
        assert |s| >= 2 && s[1] == '"';
        ReadQuotedGrowth(s[2..], acc + ['"']);
        assert false;
      } else {
        assert s[1..] == cell[1..] + "\"" + rest;
        assert acc + cell == (acc + [cell[0]]) + cell[1..];
        InPlaceReadIsQuoteFree(cell[1..], rest, acc + [cell[0]]);
      }
    }
  }

  /**
   * Any cell holding a double quote, written between quotes with nothing
   * escaped, is not read back as itself with the reader resuming after its
   * closing quote, whatever text follows.
   */
  lemma QuotedCellMisread(cell: string, rest: string)
    requires !Free(cell, '"')
    ensures ReadField(Quote(cell) + rest) != Some((cell, rest))
  {
    var s := Quote(cell) + rest;
    assert s[0] == '"';
    assert s[1..] == cell + "\"" + rest;
    if ReadField(s) == Some((cell, rest)) {
      assert [] + cell == cell;
      InPlaceReadIsQuoteFree(cell, rest, []);
    }
  }

  /** A vendor name holding a double quote: the export leaves the quote as it is and the line no longer reads as a record. */
  lemma UnescapedQuoteUnreadable(inv: CsvInvoice)
    requires inv.vendorName == "a\"b"
    ensures ReadRecord(DataLine(inv)) == None
  {
    var qs := QuotedCells(Cells(inv));
    var tail := Join(qs[1..], ",");
    var line := DataLine(inv);
    var r := ['"', ','] + tail;
    assert line == qs[0] + "," + tail;
    assert qs[0] == ['"', 'a', '"', 'b', '"'];
    assert line == ['"', 'a', '"', 'b'] + r;
    StrayQuoteEndsField(r);
  }

  /** `"a"b...`: the quote after `a` closes the field, leaving `b` where a comma or the end should be. */
  lemma StrayQuoteEndsField(r: string)
    ensures ReadField(['"', 'a', '"', 'b'] + r) == Some((['a'], ['b'] + r))
  {
    var s0 := ['"', 'a', '"', 'b'] + r;
    var s1 := s0[1..];
    assert s1 == ['a', '"', 'b'] + r;
    var s2 := s1[1..];
    assert s2 == ['"', 'b'] + r;
    assert s2[1..] == ['b'] + r;
    assert ReadQuoted(s2, ['a']) == Some((['a'], ['b'] + r));
    assert [] + [s1[0]] == ['a'];
    assert ReadQuoted(s1, []) == ReadQuoted(s2, ['a']);
  }
}
