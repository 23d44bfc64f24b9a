/**
 * The table `generate_pdf` draws: one header line of eight fixed labels, then one line
 * of eight cells per record, in record order. The drawing surface is reduced to the
 * cells it is given, grouped into the lines that `ln()` closes.
 */
module Report {
  import opened Wrappers

  datatype Align = Left | Center | Right

  /** One `cell(...)` call: width and height in millimetres, text, border, fill and alignment. */
  datatype Cell = Cell(width: int, height: int, text: string, border: bool, fill: bool, align: Align)

  /** The cells drawn between two line breaks, left to right. */
  type Line = seq<Cell>

  /** The column keys, in the order of the columns. */
  const Headers: seq<string> := ["NRORC", "SERIEO", "DESCR", "QUANT", "UNIDA", "VOLUME", "UNIVOL", "PRCOBR"]
  /** The width of each column, in millimetres. */
  const ColWidths: seq<int> := [30, 25, 60, 20, 20, 20, 20, 20]
  const HeaderHeight := 10
  const RowHeight := 8
  /** The price column, the only one whose text comes from a two-decimal number format. */
  const PriceKey := "PRCOBR"
  /** The price text of a record without a price: the default 0 formatted with two decimals. */
  const ZeroPrice := "0.00"

  /** The header line: each label in its column's width, centred, bordered and filled. */
  function HeaderLine(): Line {
    seq(|Headers|, i requires 0 <= i < |Headers| => Cell(ColWidths[i], HeaderHeight, Headers[i], true, true, Center))
  }

  /** `str(row.get(key, ""))`, with `show` standing for Python's `str` on a database value. */
  function Field<V>(rec: map<string, V>, key: string, show: V -> string): string {
    if key in rec then show(rec[key]) else ""
  }

  /**
   * The price text, `f'{row.get("PRCOBR", 0):.2f}'`; `money` stands for the two-decimal
   * format of a database value, which raises for a value that is not a number (a NULL, say).
   */
  function PriceText<V>(rec: map<string, V>, money: V -> Result<string, string>): Result<string, string> {
    if PriceKey in rec then money(rec[PriceKey]) else Success(ZeroPrice)
  }

  /** The eight cells of one record's line, or the error the price format raised. */
  function RowLine<V>(rec: map<string, V>, show: V -> string, money: V -> Result<string, string>): (r: Result<Line, string>)
    ensures r.Success? <==> PriceText(rec, money).Success?
    ensures r.Failure? ==> r.error == PriceText(rec, money).error
    ensures r.Success? ==> |r.value| == |Headers| && r.value[|Headers| - 1].text == PriceText(rec, money).value
  {
    match PriceText(rec, money)
    case Failure(e) => Failure(e)
    case Success(price) => Success([
      Cell(ColWidths[0], RowHeight, Field(rec, "NRORC", show), true, false, Left),
      Cell(ColWidths[1], RowHeight, Field(rec, "SERIEO", show), true, false, Left),
      Cell(ColWidths[2], RowHeight, Field(rec, "DESCR", show), true, false, Left),
      Cell(ColWidths[3], RowHeight, Field(rec, "QUANT", show), true, false, Right),
      Cell(ColWidths[4], RowHeight, Field(rec, "UNIDA", show), true, false, Left),
      Cell(ColWidths[5], RowHeight, Field(rec, "VOLUME", show), true, false, Left),
      Cell(ColWidths[6], RowHeight, Field(rec, "UNIVOL", show), true, false, Left),
      Cell(ColWidths[7], RowHeight, price, true, false, Right)])
  }

  /** The lines of the records in order, or the error of the first record whose price cannot be formatted. */
  function Rows<V>(data: seq<map<string, V>>, show: V -> string, money: V -> Result<string, string>): (r: Result<seq<Line>, string>)
    ensures r.Success? ==> |r.value| == |data|
  {
    if data == [] then Success([])
    else
      match Rows(data[..|data| - 1], show, money)
      case Failure(e) => Failure(e)
      case Success(lines) =>
        match RowLine(data[|data| - 1], show, money)
        case Failure(e) => Failure(e)
        case Success(line) => Success(lines + [line])
  }

  /** The whole table: the header line followed by the record lines. */
  function Layout<V>(data: seq<map<string, V>>, show: V -> string, money: V -> Result<string, string>): (r: Result<seq<Line>, string>)
    ensures r.Success? ==> |r.value| == |data| + 1 && r.value[0] == HeaderLine()
  {
    match Rows(data, show, money)
    case Failure(e) => Failure(e)
    case Success(lines) => Success([HeaderLine()] + lines)
  }

  /** The drawing surface, reduced to the lines it has completed and the line in progress. */
  class Surface {
    var lines: seq<Line>
    var current: Line

    constructor ()
      ensures lines == [] && current == []
    {
      lines, current := [], [];
    }

    /** `cell(...)`: place one cell to the right of the previous one. */
    method DrawCell(c: Cell)
      modifies this
      ensures lines == old(lines) && current == old(current) + [c]
    {
      current := current + [c];
    }

    /** `ln()`: close the line in progress and start a new one. */
    method Ln()
      modifies this
      ensures lines == old(lines) + [old(current)] && current == []
    {
      lines, current := lines + [current], [];
    }
  }

  /** `generate_pdf`: draw the header cells, break the line, then draw each record's cells and break the line. */
  method GeneratePdf<V>(data: seq<map<string, V>>, show: V -> string, money: V -> Result<string, string>)
    returns (r: Result<seq<Line>, string>)
    ensures r == Layout(data, show, money)
  {
    var pdf := new Surface();
    for i := 0 to |Headers|
      invariant pdf.lines == [] && pdf.current == HeaderLine()[..i]
    {
      pdf.DrawCell(Cell(ColWidths[i], HeaderHeight, Headers[i], true, true, Center));
    }
    pdf.Ln();
    assert data[..0] == [] && pdf.lines[1..] == [];
    for k := 0 to |data|
      invariant pdf.current == [] && |pdf.lines| >= 1 && pdf.lines[0] == HeaderLine()
      invariant Rows(data[..k], show, money) == Success(pdf.lines[1..])
    {
      var row := data[k];
      ghost var before := pdf.lines;
      assert data[..k + 1][..k] == data[..k] && data[..k + 1][k] == row;
      var failed := DrawRow(pdf, row, show, money);
      if failed.Some? {
        RowsKeepFailure(data, k + 1, show, money);
        return Failure(failed.value);
      }
      assert pdf.lines[1..] == before[1..] + [RowLine(row, show, money).value];
    }
    assert data[..|data|] == data;
    assert pdf.lines == [HeaderLine()] + pdf.lines[1..];
    return Success(pdf.lines);
  }

  /**
   * The body of the record loop of `generate_pdf`: the eight cells of one record, then a line break.
   * When the price cannot be formatted the cells drawn so far stay on the unfinished line.
   */
  method DrawRow<V>(pdf: Surface, row: map<string, V>, show: V -> string, money: V -> Result<string, string>)
    returns (failed: Option<string>)
    requires pdf.current == []
    modifies pdf
    ensures failed.Some? <==> RowLine(row, show, money).Failure?
    ensures failed.Some? ==> failed.value == RowLine(row, show, money).error
    ensures failed.Some? ==> pdf.lines == old(pdf.lines) && |pdf.current| == 7
    ensures failed.Some? ==> forall j :: 0 <= j < 7 ==>
      pdf.current[j] == Cell(ColWidths[j], RowHeight, Field(row, Headers[j], show), true, false, if Headers[j] == "QUANT" then Right else Left)
    ensures failed.None? ==> pdf.lines == old(pdf.lines) + [RowLine(row, show, money).value] && pdf.current == []
  {
    pdf.DrawCell(Cell(ColWidths[0], RowHeight, Field(row, "NRORC", show), true, false, Left));
    pdf.DrawCell(Cell(ColWidths[1], RowHeight, Field(row, "SERIEO", show), true, false, Left));
    pdf.DrawCell(Cell(ColWidths[2], RowHeight, Field(row, "DESCR", show), true, false, Left));
    pdf.DrawCell(Cell(ColWidths[3], RowHeight, Field(row, "QUANT", show), true, false, Right));
    pdf.DrawCell(Cell(ColWidths[4], RowHeight, Field(row, "UNIDA", show), true, false, Left));
    pdf.DrawCell(Cell(ColWidths[5], RowHeight, Field(row, "VOLUME", show), true, false, Left));
    pdf.DrawCell(Cell(ColWidths[6], RowHeight, Field(row, "UNIVOL", show), true, false, Left));
    var price := PriceText(row, money);
    if price.Failure? {
      return Some(price.error);
    }
    pdf.DrawCell(Cell(ColWidths[7], RowHeight, price.value, true, false, Right));
    ghost var line := RowLine(row, show, money).value;
    assert |line| == |pdf.current| && forall j :: 0 <= j < |line| ==> line[j] == pdf.current[j];
    assert line == pdf.current;
    assert RowLine(row, show, money) == Success(pdf.current);
    pdf.Ln();
    return None;
  }

  /** Once a prefix of the records has failed, the whole table fails with the same error. */
  lemma {:induction false} RowsKeepFailure<V>(data: seq<map<string, V>>, n: nat, show: V -> string, money: V -> Result<string, string>)
    requires n <= |data| && Rows(data[..n], show, money).Failure?
    ensures Rows(data, show, money) == Rows(data[..n], show, money)
  {
    if n < |data| {
      var init := data[..|data| - 1];
      assert init[..n] == data[..n];
      RowsKeepFailure(init, n, show, money);
    } else {
      assert data[..n] == data;
    }
  }

  /** The record lines exist exactly when every price can be formatted, and then line i is record i's. */
  lemma {:induction false} RowsInOrder<V>(data: seq<map<string, V>>, show: V -> string, money: V -> Result<string, string>)
    ensures Rows(data, show, money).Success? <==> forall i :: 0 <= i < |data| ==> PriceText(data[i], money).Success?
    ensures Rows(data, show, money).Success? ==>
      |Rows(data, show, money).value| == |data| &&
      forall i :: 0 <= i < |data| ==> RowLine(data[i], show, money) == Success(Rows(data, show, money).value[i])
  {
    if data != [] {
      var init := data[..|data| - 1];
      RowsInOrder(init, show, money);
      assert forall i :: 0 <= i < |init| ==> init[i] == data[i];
    }
  }

  /** A failed table carries the error of the first record whose price cannot be formatted. */
  lemma {:induction false} RowsFirstFailure<V>(data: seq<map<string, V>>, show: V -> string, money: V -> Result<string, string>)
    requires Rows(data, show, money).Failure?
    ensures exists i :: 0 <= i < |data| && PriceText(data[i], money) == Failure(Rows(data, show, money).error) &&
                        forall j :: 0 <= j < i ==> PriceText(data[j], money).Success?
  {
    var init := data[..|data| - 1];
    assert forall i :: 0 <= i < |init| ==> init[i] == data[i];
    if Rows(init, show, money).Failure? {
      RowsFirstFailure(init, show, money);
    } else {
      RowsInOrder(init, show, money);
      assert PriceText(data[|init|], money) == Failure(Rows(data, show, money).error);
    }
  }

  /** The cell in column j of a record's line: the header's width, the record's value under the j-th key. */
  lemma RowLineCell<V>(rec: map<string, V>, show: V -> string, money: V -> Result<string, string>, j: nat)
    requires j < |Headers| && RowLine(rec, show, money).Success?
    ensures |RowLine(rec, show, money).value| == |Headers|
    ensures RowLine(rec, show, money).value[j] == Cell(
      HeaderLine()[j].width, RowHeight,
      if Headers[j] == PriceKey then PriceText(rec, money).value else Field(rec, Headers[j], show),
      true, false,
      if Headers[j] == "QUANT" || Headers[j] == PriceKey then Right else Left)
  {
  }

  /** A table is produced exactly when every record's price is absent or can be formatted. */
  lemma LayoutSucceeds<V>(data: seq<map<string, V>>, show: V -> string, money: V -> Result<string, string>)
    ensures Layout(data, show, money).Success? <==>
      forall i :: 0 <= i < |data| && PriceKey in data[i] ==> money(data[i][PriceKey]).Success?
    ensures Layout(data, show, money).Failure? ==>
      exists i :: 0 <= i < |data| && PriceKey in data[i] && money(data[i][PriceKey]) == Failure(Layout(data, show, money).error)
  {
    RowsInOrder(data, show, money);
    if Rows(data, show, money).Failure? {
      RowsFirstFailure(data, show, money);
    }
  }

  /** The first line is the fixed header: eight labels in their widths, centred and filled. */
  lemma LayoutHeader<V>(data: seq<map<string, V>>, show: V -> string, money: V -> Result<string, string>)
    requires Layout(data, show, money).Success?
    ensures Layout(data, show, money).value[0] == [
      Cell(30, 10, "NRORC", true, true, Center), Cell(25, 10, "SERIEO", true, true, Center),
      Cell(60, 10, "DESCR", true, true, Center), Cell(20, 10, "QUANT", true, true, Center),
      Cell(20, 10, "UNIDA", true, true, Center), Cell(20, 10, "VOLUME", true, true, Center),
      Cell(20, 10, "UNIVOL", true, true, Center), Cell(20, 10, "PRCOBR", true, true, Center)]
  {
  }

  /** After the header, one line per record in record order; cell j of line i + 1 shows record i under key j. */
  lemma LayoutRows<V>(data: seq<map<string, V>>, show: V -> string, money: V -> Result<string, string>, i: nat, j: nat)
    requires Layout(data, show, money).Success? && i < |data| && j < |Headers|
    ensures PriceText(data[i], money).Success?
    ensures |Layout(data, show, money).value| == |data| + 1
    ensures |Layout(data, show, money).value[i + 1]| == |Headers|
    ensures Layout(data, show, money).value[i + 1][j] == Cell(
      ColWidths[j], RowHeight,
      if Headers[j] == PriceKey then PriceText(data[i], money).value else Field(data[i], Headers[j], show),
      true, false,
      if Headers[j] == "QUANT" || Headers[j] == PriceKey then Right else Left)
  {
    RowsInOrder(data, show, money);
    RowLineCell(data[i], show, money, j);
  }
}
