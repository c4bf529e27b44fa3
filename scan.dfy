/**
 * What `_fetch_data` computes, stated as functions over pages that are already
 * reduced to the text of their table cells. The class in module Scraper runs
 * the same steps imperatively and is proved against these.
 */
module RowScan {
  import opened Wrappers
  import opened ClockTime
  import opened Results

  /** The texts of the `<td>` cells of one `<tr>` of the results table. */
  type Row = seq<string>

  /** The rows of the results table of one page, in document order. */
  type Page = seq<Row>

  /** The exceptions the row scan lets escape. */
  datatype ScrapeError =
    | IndexError(index: nat)        // a row of 5 to 9 cells has no `cols[8]` or no `cols[9]`
    | TimeFormatError(text: string) // `strptime` rejected the time text

  /** How `_fetch_data` ends: it returns `more`, or it raises. */
  datatype Status = Returned(more: bool) | Raised(error: ScrapeError)

  /** The records appended while scanning, and how the scan ended. */
  datatype Run = Run(records: seq<ResultData>, status: Status)

  /** The effect of one row on the scan. */
  datatype Step = Skip | Append(record: ResultData) | EndOfCategory | Fail(error: ScrapeError)

  /** The branch `_fetch_data` takes for one row. */
  function RowStep(cols: Row): (s: Step)
    ensures s.Skip? <==> |cols| <= 4
    ensures s.EndOfCategory? <==> |cols| >= 10 && cols[9] == ""
    ensures s.Append? ==>
      |cols| >= 10 && s.record.startNumber == cols[8] && s.record.timeStr == cols[5]
      && ':' !in s.record.category && s.record.timeSeconds < 86400
  {
    if |cols| <= 4 then Skip
    else if |cols| <= 8 then Fail(IndexError(8))
    else if |cols| == 9 then Fail(IndexError(9))
    else if cols[9] == "" then EndOfCategory
    else
      match ClockTime.Parse(cols[5])
      case None => Fail(TimeFormatError(cols[5]))
      case Some(t) => Append(ResultData(cols[8], CategoryName(cols[9]), cols[5], Seconds(t)))
  }

  /** What every stored record satisfies: a colon-free category and seconds read off its own time text. */
  predicate WellFormed(r: ResultData) {
    ':' !in r.category
    && r.timeSeconds < 86400
    && match ClockTime.Parse(r.timeStr)
       case Some(t) => r.timeSeconds == Seconds(t)
       case None => false
  }

  /** The scan of one row, followed when the row lets the scan go on by the scan `rest` of the rows after it. */
  function Then(step: Step, rest: Run): Run {
    match step
    case Skip => rest
    case Append(r) => Run([r] + rest.records, rest.status)
    case EndOfCategory => Run([], Returned(false))
    case Fail(e) => Run([], Raised(e))
  }

  /** `_fetch_data` on a page: the rows in order until one ends the category or raises. */
  function Scan(rows: Page): (p: Run)
    ensures |p.records| <= |rows|
    decreases |rows|
  {
    if rows == [] then Run([], Returned(true))
    else Then(RowStep(rows[0]), Scan(rows[1..]))
  }

  /** The scan from row `k` on: row `k`, then the rows after it. */
  lemma ScanUnfold(rows: Page, k: nat)
    requires k < |rows|
    ensures Scan(rows[k..]) == Then(RowStep(rows[k]), Scan(rows[k + 1..]))
  {
    assert rows[k..][0] == rows[k];
    assert rows[k..][1..] == rows[k + 1..];
  }

  /** The scan of a row followed by more rows. */
  lemma ScanCons(row: Row, rest: Page)
    ensures Scan([row] + rest) == Then(RowStep(row), Scan(rest))
  {
    assert ([row] + rest)[0] == row;
    assert ([row] + rest)[1..] == rest;
  }

  /** The record a result row makes is well formed. */
  lemma RowStepWellFormed(cols: Row)
    ensures RowStep(cols).Append? ==> WellFormed(RowStep(cols).record)
  {
  }

  /** Every record of a list of records is well formed. */
  predicate AllWellFormed(records: seq<ResultData>) {
    forall i :: 0 <= i < |records| ==> WellFormed(records[i])
  }

  lemma ConsWellFormed(r: ResultData, tail: seq<ResultData>)
    requires WellFormed(r) && AllWellFormed(tail)
    ensures AllWellFormed([r] + tail)
  {
    hide WellFormed;
    assert forall i :: 1 <= i < |tail| + 1 ==> ([r] + tail)[i] == tail[i - 1];
  }

  /** Every record a page scan appends is well formed. */
  lemma {:induction false} ScanWellFormed(rows: Page)
    ensures AllWellFormed(Scan(rows).records)
    decreases |rows|
  {
    if rows != [] {
      ScanWellFormed(rows[1..]);
      RowStepWellFormed(rows[0]);
      assert AllWellFormed([]);
      hide Scan, RowStep, WellFormed, AllWellFormed;
      ScanCons(rows[0], rows[1..]);
      assert rows == [rows[0]] + rows[1..];
      match RowStep(rows[0])
      case Append(r) =>
        ConsWellFormed(r, Scan(rows[1..]).records);
      case Skip =>
      case EndOfCategory =>
      case Fail(_) =>
    }
  }

  /** Scanning two stretches of rows in a row: the second is reached only if the first returns True. */
  lemma {:induction false} ScanAppend(a: Page, b: Page)
    ensures Scan(a + b) ==
      if Scan(a).status == Returned(true)
      then Run(Scan(a).records + Scan(b).records, Scan(b).status)
      else Scan(a)
    decreases |a|
  {
    if a == [] {
      assert a + b == b;
    } else {
      assert (a + b)[0] == a[0];
      assert (a + b)[1..] == a[1..] + b;
      ScanAppend(a[1..], b);
      if RowStep(a[0]).Append? {
        var r := RowStep(a[0]).record;
        assert [r] + (Scan(a[1..]).records + Scan(b).records) == [r] + Scan(a[1..]).records + Scan(b).records;
      }
    }
  }

  /** A row of at most 4 cells has no effect: the page scans as if it were not there. */
  lemma {:induction false} NarrowRowSkipped(prefix: Page, row: Row, rest: Page)
    requires |row| <= 4
    ensures Scan(prefix + [row] + rest) == Scan(prefix + rest)
  {
    hide Scan;
    ScanAppend(prefix, [row] + rest);
    ScanAppend(prefix, rest);
    ScanCons(row, rest);
    assert prefix + [row] + rest == prefix + ([row] + rest);
  }

  /**
   * A result row (10 or more cells, a category, a valid time) appends exactly
   * one record after those of the rows before it, made of `cols[8]`, the
   * category up to its first colon, `cols[5]` and that time in seconds.
   */
  lemma {:induction false} ResultRowAppended(prefix: Page, row: Row, rest: Page)
    requires Scan(prefix).status == Returned(true)
    requires |row| >= 10 && row[9] != "" && ClockTime.Parse(row[5]).Some?
    ensures Scan(prefix + [row] + rest) ==
      Run(Scan(prefix).records
          + [ResultData(row[8], CategoryName(row[9]), row[5], Seconds(ClockTime.Parse(row[5]).value))]
          + Scan(rest).records,
          Scan(rest).status)
  {
    assert RowStep(row) == Append(ResultData(row[8], CategoryName(row[9]), row[5], Seconds(ClockTime.Parse(row[5]).value)));
    hide Scan, RowStep, ClockTime.Parse, CategoryName;
    ScanAppend(prefix, [row] + rest);
    ScanCons(row, rest);
    assert prefix + [row] + rest == prefix + ([row] + rest);
  }

  /**
   * A wide row with an empty category ends the scan with False: it makes no
   * record, the rows after it are not looked at, and the records appended
   * before it on the page are kept.
   */
  lemma {:induction false} SentinelEndsPage(prefix: Page, row: Row, rest: Page)
    requires Scan(prefix).status == Returned(true)
    requires |row| >= 10 && row[9] == ""
    ensures Scan(prefix + [row] + rest) == Run(Scan(prefix).records, Returned(false))
  {
    hide Scan;
    ScanAppend(prefix, [row] + rest);
    ScanCons(row, rest);
    assert prefix + [row] + rest == prefix + ([row] + rest);
  }

  /** A result row whose time `strptime` rejects raises, keeping the records appended before it. */
  lemma {:induction false} BadTimeRaises(prefix: Page, row: Row, rest: Page)
    requires Scan(prefix).status == Returned(true)
    requires |row| >= 10 && row[9] != "" && ClockTime.Parse(row[5]).None?
    ensures Scan(prefix + [row] + rest) == Run(Scan(prefix).records, Raised(TimeFormatError(row[5])))
  {
    hide Scan;
    ScanAppend(prefix, [row] + rest);
    ScanCons(row, rest);
    assert prefix + [row] + rest == prefix + ([row] + rest);
  }

  /** A row of 5 to 9 cells raises IndexError before its category is looked at. */
  lemma {:induction false} ShortRowRaises(prefix: Page, row: Row, rest: Page)
    requires Scan(prefix).status == Returned(true)
    requires 5 <= |row| <= 9
    ensures Scan(prefix + [row] + rest) ==
      Run(Scan(prefix).records, Raised(IndexError(if |row| <= 8 then 8 else 9)))
  {
    hide Scan;
    ScanAppend(prefix, [row] + rest);
    ScanCons(row, rest);
    assert prefix + [row] + rest == prefix + ([row] + rest);
  }

  /** A page with no rows returns True and appends nothing. */
  lemma EmptyPageContinues()
    ensures Scan([]) == Run([], Returned(true))
  {
  }

  /** A page returns True exactly when none of its rows ends the category or raises. */
  lemma {:induction false} ScanContinues(rows: Page)
    ensures Scan(rows).status == Returned(true) <==>
      forall i :: 0 <= i < |rows| ==> RowStep(rows[i]).Skip? || RowStep(rows[i]).Append?
    decreases |rows|
  {
    if rows != [] {
      ScanContinues(rows[1..]);
      assert forall i :: 1 <= i < |rows| ==> rows[i] == rows[1..][i - 1];
    }
  }
}
