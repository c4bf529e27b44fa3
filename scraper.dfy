/**
 * The scraper object: `ScrapeTrackMaxx` keeps the records it has gathered
 * in `data`, appends to it row by row in FetchPage (`_fetch_data`), and resets
 * and refills it category by category, page by page, in FetchData
 * (`fetch_data`). Both are proved to leave `data` as the functions of modules
 * RowScan and Pagination say.
 */
module Scraper {
  import opened Wrappers
  import opened ClockTime
  import opened Results
  import opened RowScan
  import opened Pagination

  class ScrapeTrackMaxx {
    var raceId: string
    var catIds: seq<string>
    var data: seq<ResultData>

    constructor (raceId: string, catIds: seq<string>)
      ensures this.raceId == raceId && this.catIds == catIds && data == []
    {
      this.raceId := raceId;
      this.catIds := catIds;
      data := [];
    }

    /**
     * `_fetch_data` on the rows of one page: appends a record for each result
     * row to `data`, in row order, and returns whether the next page is to be
     * requested; an exception leaves the records appended before it in place.
     */
    method FetchPage(rows: Page) returns (status: Status)
      modifies this`data
      ensures data == old(data) + Scan(rows).records
      ensures status == Scan(rows).status
    {
      hide Scan, ClockTime.Parse, CategoryName;
      ghost var before := data;
      var k := 0;
      assert rows[0..] == rows;
      while k < |rows|
        invariant 0 <= k <= |rows|
        invariant |before| <= |data| && data[..|before|] == before
        invariant Scan(rows) == Run(data[|before|..] + Scan(rows[k..]).records, Scan(rows[k..]).status)
      {
        ghost var done := data[|before|..];
        ScanUnfold(rows, k);
        var cols := rows[k];
        if |cols| > 4 {
          if |cols| <= 8 {
            return Raised(IndexError(8));
          }
          var startNumber := cols[8];
          if |cols| == 9 {
            return Raised(IndexError(9));
          }
          var category := cols[9];
          var timeStr := cols[5];
          if category != "" {
            category := CategoryName(category);
            var time := ClockTime.Parse(timeStr);
            if time.None? {
              return Raised(TimeFormatError(timeStr));
            }
            var minutes := time.value.hour * 60 + time.value.minute;
            var seconds := minutes * 60 + time.value.second;
            var rd := ResultData(startNumber, category, timeStr, seconds);
            assert RowStep(cols) == Append(rd);
            data := data + [rd];
            assert data[|before|..] == done + [rd];
            assert done + ([rd] + Scan(rows[k + 1..]).records) == done + [rd] + Scan(rows[k + 1..]).records;
          } else {
            return Returned(false);
          }
        }
        k := k + 1;
      }
      EmptyPageContinues();
      assert rows[k..] == [];
      assert data == before + data[|before|..];
      return Returned(true);
    }

    /**
     * The inner `while` loop of `fetch_data` for one category: requests pages
     * 0, 1, 2, ... through FetchPage while it returns True. The supplied pages
     * are required to hold one that does not.
     */
    method FetchCategory(ps: seq<Page>) returns (status: Status)
      requires RunCategory(ps).status != Returned(true)
      modifies this`data
      ensures data == old(data) + RunCategory(ps).records
      ensures status == RunCategory(ps).status
    {
      hide Scan;
      ghost var before := data;
      var i := 0;
      RunCategoryUnfold(ps, 0);
      assert ps[0..] == ps;
      status := FetchPage(ps[i]);
      while status == Returned(true)
        invariant 0 <= i < |ps|
        invariant |before| <= |data| && data[..|before|] == before
        invariant RunCategory(ps) == Resume(data[|before|..], status, ps[i + 1..])
        decreases |ps| - i
      {
        ghost var done := data[|before|..];
        ResumeNotLast(ps, i, done);
        i := i + 1;
        ResumeStep(ps, i, done);
        status := FetchPage(ps[i]);
        assert data[|before|..] == done + Scan(ps[i]).records;
      }
    }

    /**
     * `fetch_data`: empties `data`, then runs FetchCategory on the pages of
     * each category id in order. The page source is `pages`; the loop is
     * required to end within the pages it supplies. On success the result is
     * the new `data`; an exception is returned as an error, with `data`
     * holding what was appended before it.
     */
    method FetchData(pages: string -> seq<Page>) returns (r: Result<seq<ResultData>, ScrapeError>)
      requires !Fetch(catIds, pages).Unbounded?
      modifies this`data
      ensures data == Fetch(catIds, pages).data
      ensures Fetch(catIds, pages).Completed? ==> r == Ok(data)
      ensures Fetch(catIds, pages).Aborted? ==> r == Err(Fetch(catIds, pages).error)
    {
      data := [];
      var n := 0;
      while n < |catIds|
        invariant 0 <= n <= |catIds|
        invariant Fetch(catIds[..n], pages).Completed?
        invariant data == Fetch(catIds[..n], pages).data
      {
        var runId := catIds[n];
        FetchResumes(catIds, n, pages);
        assert RunCategory(pages(runId)).status != Returned(true);
        var status := FetchCategory(pages(runId));
        if status.Raised? {
          return Err(status.error);
        }
        FetchAppend(catIds[..n], [runId], pages);
        assert catIds[..n + 1] == catIds[..n] + [runId];
        n := n + 1;
      }
      assert catIds[..n] == catIds;
      return Ok(data);
    }
  }
}
