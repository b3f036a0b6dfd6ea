/**
 * The worksheet the handlers write to, and `ensure_header`.
 *
 * The remote service is represented by its answers: every remote call
 * takes whether the service carries it out (`true`) or raises (`false`);
 * a call that raises changes nothing.
 */
module Sheet {
  import opened Wrappers
  import opened Columns

  type Rows = seq<seq<Cell>>

  /** The row `ws.append_row(COLUMNS_ORDER)` writes. */
  function HeaderRow(): (h: seq<Cell>)
    ensures |h| == |ColumnsOrder|
    ensures forall i :: 0 <= i < |h| ==> h[i] == Text(Header(ColumnsOrder[i]))
  {
    seq(|ColumnsOrder|, i requires 0 <= i < |ColumnsOrder| => Text(Header(ColumnsOrder[i])))
  }

  /** The sheet is not empty and its first row is exactly the header. */
  predicate HasHeader(rows: Rows) {
    rows != [] && rows[0] == HeaderRow()
  }

  /** The sheet `ensure_header` leaves when every remote call succeeds. */
  function Repaired(rows: Rows): (r: Rows)
    ensures HasHeader(r)
    ensures HasHeader(rows) ==> r == rows
  {
    if HasHeader(rows) then rows else [HeaderRow()]
  }

  /** The service's answer to each remote call one submission makes. */
  datatype Responses = Responses(
    open: bool,         // get_worksheet(): credentials, authorisation, open_by_key
    read: bool,         // ws.get_all_values()
    clear: bool,        // ws.clear()
    writeHeader: bool,  // ws.append_row(COLUMNS_ORDER)
    append: bool)       // ws.append_row(row)

  /** The first worksheet of the spreadsheet (`sh.sheet1`). */
  class Worksheet {
    var rows: Rows

    constructor (initial: Rows)
      ensures rows == initial
    {
      rows := initial;
    }

    /** `ws.get_all_values()` */
    method GetAllValues(succeeds: bool) returns (r: Option<Rows>)
      ensures succeeds ==> r == Some(rows)
      ensures !succeeds ==> r == None
    {
      r := if succeeds then Some(rows) else None;
    }

    /** `ws.clear()` */
    method Clear(succeeds: bool) returns (ok: bool)
      modifies this
      ensures ok == succeeds
      ensures rows == if ok then [] else old(rows)
    {
      ok := succeeds;
      if ok {
        rows := [];
      }
    }

    /** `ws.append_row(row)`: all of the row or nothing. */
    method AppendRow(row: seq<Cell>, succeeds: bool) returns (ok: bool)
      modifies this
      ensures ok == succeeds
      ensures rows == if ok then old(rows) + [row] else old(rows)
    {
      ok := succeeds;
      if ok {
        rows := rows + [row];
      }
    }
  }

  /**
   * `ensure_header(ws)`: an empty sheet, or one whose first row is not the
   * header, is cleared and given the header. `ok` is false when one of the
   * remote calls raised; a clear that succeeded before a failed header
   * write leaves the sheet empty.
   */
  method EnsureHeader(ws: Worksheet, net: Responses) returns (ok: bool)
    modifies ws
    ensures ok <==> net.read && (HasHeader(old(ws.rows)) || (net.clear && net.writeHeader))
    ensures ok ==> ws.rows == Repaired(old(ws.rows))
    ensures !ok && net.read && net.clear && !HasHeader(old(ws.rows)) ==> ws.rows == []
    ensures !ok && !(net.read && net.clear && !HasHeader(old(ws.rows))) ==> ws.rows == old(ws.rows)
  {
    var existing := ws.GetAllValues(net.read);
    if existing.None? {
      return false;
    }
    if existing.value == [] || existing.value[0] != HeaderRow() {
      ok := ws.Clear(net.clear);
      if !ok {
        return;
      }
      ok := ws.AppendRow(HeaderRow(), net.writeHeader);
    } else {
      ok := true;
    }
  }

  /** Every remote call of the save succeeds on a sheet holding `rows`. */
  predicate SaveSucceeds(rows: Rows, net: Responses) {
    net.open && net.read && (HasHeader(rows) || (net.clear && net.writeHeader)) && net.append
  }

  /**
   * The `try` block of the handlers: `get_worksheet()` (which fails when
   * `net.open` is false), `ensure_header(ws)`, then `ws.append_row(row)`.
   * On success the row follows the repaired sheet; an exception leaves
   * the sheet as it was, empty, or repaired without the row.
   */
  method SaveRow(ws: Worksheet, net: Responses, row: seq<Cell>) returns (ok: bool)
    modifies ws
    ensures ok <==> SaveSucceeds(old(ws.rows), net)
    ensures ok ==> ws.rows == Repaired(old(ws.rows)) + [row]
    ensures !ok ==> ws.rows == old(ws.rows) || ws.rows == [] || ws.rows == Repaired(old(ws.rows))
  {
    if !net.open {
      return false;
    }
    ok := EnsureHeader(ws, net);
    if !ok {
      return;
    }
    ok := ws.AppendRow(row, net.append);
  }

  /** After a repair the first row is the header. */
  /** Repairing twice is repairing once: `ensure_header` is idempotent. */
  lemma RepairIdempotent(rows: Rows)
    ensures Repaired(Repaired(rows)) == Repaired(rows)
  {
  }

  /** A sheet that already starts with the header is left exactly as it is. */
  lemma RepairKeepsGoodSheet(rows: Rows)
    ensures Repaired(rows) == rows <==> HasHeader(rows)
  {
  }

  /**
   * A sheet without the header loses every row; after the repair and one
   * append it holds exactly the header and that row.
   */
  lemma RepairThenAppend(rows: Rows, row: seq<Cell>)
    requires !HasHeader(rows)
    ensures Repaired(rows) + [row] == [HeaderRow(), row]
    ensures |Repaired(rows) + [row]| == 2
  {
  }
}
