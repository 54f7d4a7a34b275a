/**
 * The rows of `summary.csv` as the analysis scripts read them back: `load_summary_csv`'s
 * numeric coercion of each field, and the few keys the analyses look up with
 * `row.get(key, default)`, grouped by batch size.
 */
module SummaryRows {
  import opened Wrappers
  import opened Text

  /**
   * A field after coercion: an `int`, a field handed to `float()` (which this model does
   * not interpret), or the text itself.
   */
  datatype Cell = Int(i: int) | Float(text: string) | Str(text: string)

  /**
   * The coercion of one text field: a field with a "." goes to `float()`, any other one to
   * `int()`, and a field `int()` rejects stays as it was.
   */
  function Coerce(field: string): (c: Cell)
    ensures c.Float? <==> '.' in field
    ensures c.Float? ==> c.text == field
    ensures c.Int? ==> ParseInt(field) == Some(c.i)
    ensures c.Str? <==> '.' !in field && ParseInt(field).None?
    ensures c.Str? ==> c.text == field
  {
    if '.' in field then Float(field)
    else
      match ParseInt(field)
      case Some(i) => Int(i)
      case None => Str(field)
  }

  /**
   * What the loop body does to `row[key]`: a text field is coerced; a field that is
   * already a number makes `"." in` raise `TypeError`, which is swallowed, so it stays.
   */
  function CoerceCell(c: Cell): Cell {
    match c
    case Str(s) => Coerce(s)
    case _ => c
  }

  /** A field written as `str(i)` is read back as the integer `i`. */
  lemma CoerceDecimal(i: int)
    ensures Coerce(DecimalString(i)) == Int(i)
  {
    ParseDecimalString(i);
  }

  /** Coercing an already coerced field changes nothing. */
  lemma CoerceCellIdempotent(c: Cell)
    ensures CoerceCell(CoerceCell(c)) == CoerceCell(c)
  {
    if c.Str? && Coerce(c.text).Str? {
      assert Coerce(c.text).text == c.text;
    }
  }

  /** The field loop of `load_summary_csv`: each field of one row is coerced in place. */
  method CoerceRow(row: array<Cell>)
    modifies row
    ensures forall k :: 0 <= k < row.Length ==> row[k] == CoerceCell(old(row[k]))
  {
    ghost var fields := row[..];
    for k := 0 to row.Length
      invariant forall j :: 0 <= j < k ==> row[j] == CoerceCell(fields[j])
      invariant forall j :: k <= j < row.Length ==> row[j] == fields[j]
    {
      var c := CoerceCell(row[k]);
      row[k] := c;
    }
  }

  /** A summary row after loading; an absent key is `None`. */
  datatype Row = Row(
    mode: Option<string>,
    waitSeconds: Option<real>,
    numRequests: Option<int>,
    errorRate: Option<real>,
    successful: Option<int>)

  /** `row.get("num_requests", 0)`. */
  function BatchOf(row: Row): int {
    row.numRequests.GetOr(0)
  }

  /** `1 - row.get("error_rate", 0)`. */
  function SuccessShare(row: Row): real {
    1.0 - row.errorRate.GetOr(0.0)
  }

  /** `abs(row.get("wait_seconds", 0) - wait_seconds) < 0.01`. */
  predicate WaitNear(row: Row, waitSeconds: real) {
    var d := row.waitSeconds.GetOr(0.0) - waitSeconds;
    -0.01 < d < 0.01
  }

  /** `row.get("mode") == mode`: an absent mode matches nothing. */
  predicate ModeIs(row: Row, mode: string) {
    row.mode == Some(mode)
  }

  /** The rows of batch size `b`, in their original order. */
  function InBatch(rows: seq<Row>, b: int): (r: seq<Row>)
    ensures |r| <= |rows|
  {
    if rows == [] then []
    else
      var last := rows[|rows| - 1];
      var init := InBatch(rows[..|rows| - 1], b);
      if BatchOf(last) == b then init + [last] else init
  }

  /** A batch's rows are exactly the rows of that batch size. */
  lemma {:induction false} InBatchMembers(rows: seq<Row>, b: int)
    ensures forall x :: x in InBatch(rows, b) <==> x in rows && BatchOf(x) == b
  {
    if rows != [] {
      InBatchMembers(rows[..|rows| - 1], b);
      assert rows == rows[..|rows| - 1] + [rows[|rows| - 1]];
    }
  }

  /** The batch sizes that occur among the rows (the keys of the grouping dictionary). */
  function BatchSizes(rows: seq<Row>): set<int> {
    if rows == [] then {}
    else BatchSizes(rows[..|rows| - 1]) + {BatchOf(rows[|rows| - 1])}
  }

  /** The batch sizes are those of the rows. */
  lemma {:induction false} BatchSizesMembers(rows: seq<Row>)
    ensures forall b :: b in BatchSizes(rows) <==> exists k :: 0 <= k < |rows| && BatchOf(rows[k]) == b
  {
    if rows != [] {
      var init := rows[..|rows| - 1];
      BatchSizesMembers(init);
      forall b | b in BatchSizes(rows) ensures exists k :: 0 <= k < |rows| && BatchOf(rows[k]) == b {
        if b in BatchSizes(init) {
          var k :| 0 <= k < |init| && BatchOf(init[k]) == b;
          assert rows[k] == init[k];
        } else {
          assert BatchOf(rows[|rows| - 1]) == b;
        }
      }
      forall b | exists k :: 0 <= k < |rows| && BatchOf(rows[k]) == b ensures b in BatchSizes(rows) {
        var k :| 0 <= k < |rows| && BatchOf(rows[k]) == b;
        if k < |init| {
          assert init[k] == rows[k];
        }
      }
    }
  }

  /** A batch size that occurs has at least one row. */
  lemma InBatchNonEmpty(rows: seq<Row>, b: int)
    requires b in BatchSizes(rows)
    ensures InBatch(rows, b) != []
  {
    BatchSizesMembers(rows);
    InBatchMembers(rows, b);
    var k :| 0 <= k < |rows| && BatchOf(rows[k]) == b;
    assert rows[k] in InBatch(rows, b);
  }

  /** A batch size that does not occur has no rows. */
  lemma InBatchEmpty(rows: seq<Row>, b: int)
    requires b !in BatchSizes(rows)
    ensures InBatch(rows, b) == []
  {
    BatchSizesMembers(rows);
    InBatchMembers(rows, b);
    if InBatch(rows, b) != [] {
      assert InBatch(rows, b)[0] in InBatch(rows, b);
    }
  }

  /** Growing the rows by one extends exactly the group of the new row's batch size. */
  lemma InBatchSnoc(rows: seq<Row>, i: nat, b: int)
    requires i < |rows|
    ensures InBatch(rows[..i + 1], b) ==
      InBatch(rows[..i], b) + (if BatchOf(rows[i]) == b then [rows[i]] else [])
    ensures BatchSizes(rows[..i + 1]) == BatchSizes(rows[..i]) + {BatchOf(rows[i])}
  {
    assert rows[..i + 1][..i] == rows[..i];
  }
}
