/**
 * What `fetch_data` computes: for each category id in order, the pages 0, 1,
 * 2, ... scanned until one returns False, with every appended record kept in
 * order. The page source is a function from a category id to the pages it
 * serves; a category whose supplied pages all return True stands for a loop
 * that would go on requesting pages.
 */
module Pagination {
  import opened Results
  import opened RowScan

  /** The pieces of `ss` one after the other. */
  function Flatten<T>(ss: seq<seq<T>>): seq<T>
    decreases |ss|
  {
    if ss == [] then [] else ss[0] + Flatten(ss[1..])
  }

  /** The records each page appends on its own, page by page. */
  function PageRecords(pages: seq<Page>): (r: seq<seq<ResultData>>)
    ensures |r| == |pages|
  {
    seq(|pages|, j requires 0 <= j < |pages| => RowScan.Scan(pages[j]).records)
  }

  /**
   * The `while` loop of `fetch_data` for one category: scan page 0, 1, ... in
   * order while the scan returns True. The status is that of the page that
   * stopped the loop, or Returned(true) if none of the supplied pages did.
   */
  function RunCategory(pages: seq<Page>): (c: Run)
    decreases |pages|
  {
    if pages == [] then Run([], Returned(true))
    else
      var p := RowScan.Scan(pages[0]);
      if p.status == Returned(true) then
        var rest := RunCategory(pages[1..]);
        Run(p.records + rest.records, rest.status)
      else p
  }

  /** Running the pages of two stretches: the second is requested only if every page of the first returned True. */
  lemma {:induction false} RunCategoryAppend(a: seq<Page>, b: seq<Page>)
    ensures RunCategory(a + b) ==
      if RunCategory(a).status == Returned(true)
      then Run(RunCategory(a).records + RunCategory(b).records, RunCategory(b).status)
      else RunCategory(a)
    decreases |a|
  {
    hide RowScan.Scan, RowScan.RowStep;
    hide RowScan.Scan, RowScan.RowStep;
    if a == [] {
      assert a + b == b;
    } else {
      assert (a + b)[0] == a[0];
      assert (a + b)[1..] == a[1..] + b;
      RunCategoryAppend(a[1..], b);
      var p := RowScan.Scan(a[0]);
      if p.status == Returned(true) {
        assert p.records + (RunCategory(a[1..]).records + RunCategory(b).records)
            == p.records + RunCategory(a[1..]).records + RunCategory(b).records;
      }
    }
  }

  /**
   * Pagination stops at the first page that does not return True: the pages
   * after it are never requested, the run ends as that page did, and the
   * records are those of pages 0 to k, in page order.
   */
  lemma {:induction false} StopsAtFirstEnd(pages: seq<Page>, k: nat)
    requires k < |pages|
    requires forall j :: 0 <= j < k ==> RowScan.Scan(pages[j]).status == Returned(true)
    requires RowScan.Scan(pages[k]).status != Returned(true)
    ensures RunCategory(pages) == RunCategory(pages[..k + 1])
    ensures RunCategory(pages).status == RowScan.Scan(pages[k]).status
    ensures RunCategory(pages).records == Flatten(PageRecords(pages[..k + 1]))
    decreases k
  {
    hide RowScan.Scan, RowScan.RowStep;
    if k == 0 {
      assert pages[..1][0] == pages[0];
      assert PageRecords(pages[..1])[1..] == [];
    } else {
      var tail := pages[1..];
      forall j | 0 <= j < k - 1
        ensures RowScan.Scan(tail[j]).status == Returned(true)
      {
        assert tail[j] == pages[j + 1];
      }
      StopsAtFirstEnd(tail, k - 1);
      assert pages[..k + 1][0] == pages[0];
      assert pages[..k + 1][1..] == tail[..k];
      assert PageRecords(pages[..k + 1])[1..] == PageRecords(tail[..k]);
    }
  }

  /** The loop ends within the supplied pages exactly when one of them does not return True. */
  lemma {:induction false} EndsWithinPages(pages: seq<Page>)
    ensures RunCategory(pages).status != Returned(true) <==>
      exists k :: 0 <= k < |pages| && RowScan.Scan(pages[k]).status != Returned(true)
    decreases |pages|
  {
    hide RowScan.Scan, RowScan.RowStep;
    if pages != [] {
      EndsWithinPages(pages[1..]);
      if exists k :: 0 <= k < |pages| - 1 && RowScan.Scan(pages[1..][k]).status != Returned(true) {
        var k :| 0 <= k < |pages| - 1 && RowScan.Scan(pages[1..][k]).status != Returned(true);
        assert pages[1..][k] == pages[k + 1];
      }
      if exists k :: 0 <= k < |pages| && RowScan.Scan(pages[k]).status != Returned(true) {
        var k :| 0 <= k < |pages| && RowScan.Scan(pages[k]).status != Returned(true);
        if k > 0 {
          assert pages[1..][k - 1] == pages[k];
        }
      }
    }
  }

  /**
   * How `fetch_data` ends: it returns the records (Completed), an exception
   * escapes after the records it names were appended (Aborted), or some
   * category's supplied pages all returned True, so the loop would request
   * more pages than supplied (Unbounded).
   */
  datatype Fetched =
    | Completed(data: seq<ResultData>)
    | Aborted(data: seq<ResultData>, error: ScrapeError)
    | Unbounded(data: seq<ResultData>)

  /** `fetch_data`: the categories in order, each run until a page returns False. */
  function Fetch(catIds: seq<string>, pages: string -> seq<Page>): (f: Fetched)
    decreases |catIds|
  {
    if catIds == [] then Completed([])
    else
      var c := RunCategory(pages(catIds[0]));
      match c.status
      case Raised(e) => Aborted(c.records, e)
      case Returned(more) =>
        if more then Unbounded(c.records)
        else
          var rest := Fetch(catIds[1..], pages);
          rest.(data := c.records + rest.data)
  }

  /** Fetching two lists of ids in a row: the second is visited only if the first completed. */
  lemma {:induction false} FetchAppend(a: seq<string>, b: seq<string>, pages: string -> seq<Page>)
    ensures Fetch(a + b, pages) ==
      if Fetch(a, pages).Completed?
      then Fetch(b, pages).(data := Fetch(a, pages).data + Fetch(b, pages).data)
      else Fetch(a, pages)
    decreases |a|
  {
    hide RowScan.Scan, RowScan.RowStep;
    if a == [] {
      assert a + b == b;
    } else {
      assert (a + b)[0] == a[0];
      assert (a + b)[1..] == a[1..] + b;
      FetchAppend(a[1..], b, pages);
      var c := RunCategory(pages(a[0]));
      if c.status == Returned(false) {
        assert c.records + (Fetch(a[1..], pages).data + Fetch(b, pages).data)
            == c.records + Fetch(a[1..], pages).data + Fetch(b, pages).data;
      }
    }
  }

  /** The records of each category's run, category by category. */
  function CategoryRecords(catIds: seq<string>, pages: string -> seq<Page>): (r: seq<seq<ResultData>>)
    ensures |r| == |catIds|
  {
    seq(|catIds|, i requires 0 <= i < |catIds| => RunCategory(pages(catIds[i])).records)
  }

  /**
   * `fetch_data` returns exactly when every category's run ends with False,
   * and then its result is the records of the categories, in the order of
   * `catIds`.
   */
  lemma {:induction false} FetchCompleted(catIds: seq<string>, pages: string -> seq<Page>)
    ensures Fetch(catIds, pages).Completed? <==>
      forall i :: 0 <= i < |catIds| ==> RunCategory(pages(catIds[i])).status == Returned(false)
    ensures Fetch(catIds, pages).Completed? ==>
      Fetch(catIds, pages).data == Flatten(CategoryRecords(catIds, pages))
    decreases |catIds|
  {
    hide RowScan.Scan, RowScan.RowStep;
    if catIds != [] {
      FetchCompleted(catIds[1..], pages);
      assert forall i :: 1 <= i < |catIds| ==> catIds[i] == catIds[1..][i - 1];
      assert CategoryRecords(catIds, pages)[1..] == CategoryRecords(catIds[1..], pages);
    }
  }

  /** Once the first `n` ids have completed, the fetch goes on with the ids from `n`. */
  lemma FetchResumes(catIds: seq<string>, n: nat, pages: string -> seq<Page>)
    requires n < |catIds|
    requires Fetch(catIds[..n], pages).Completed?
    ensures Fetch(catIds, pages) ==
      Fetch(catIds[n..], pages).(data := Fetch(catIds[..n], pages).data + Fetch(catIds[n..], pages).data)
  {
    FetchAppend(catIds[..n], catIds[n..], pages);
    assert catIds[..n] + catIds[n..] == catIds;
  }

  /** The run that continues with `rest` after `done` was appended with the given status. */
  function Resume(done: seq<ResultData>, status: Status, rest: seq<Page>): Run {
    if status == Returned(true)
    then Run(done + RunCategory(rest).records, RunCategory(rest).status)
    else Run(done, status)
  }

  /** The run from page `i` on: page `i`'s scan, resumed with the pages after it. */
  lemma RunCategoryUnfold(ps: seq<Page>, i: nat)
    requires i < |ps|
    ensures RunCategory(ps[i..]) == Resume(RowScan.Scan(ps[i]).records, RowScan.Scan(ps[i]).status, ps[i + 1..])
  {
    assert ps[i..][0] == ps[i];
    assert ps[i..][1..] == ps[i + 1..];
  }

  /** A run that ends within `ps` cannot still be going after the last page. */
  lemma ResumeNotLast(ps: seq<Page>, i: nat, done: seq<ResultData>)
    requires i < |ps|
    requires RunCategory(ps) == Resume(done, Returned(true), ps[i + 1..])
    requires RunCategory(ps).status != Returned(true)
    ensures i + 1 < |ps|
  {
  }

  /** Resuming a run with page `i` appends that page's records and takes on its status. */
  lemma ResumeStep(ps: seq<Page>, i: nat, done: seq<ResultData>)
    requires i < |ps|
    ensures Resume(done, Returned(true), ps[i..]) ==
      Resume(done + RowScan.Scan(ps[i]).records, RowScan.Scan(ps[i]).status, ps[i + 1..])
  {
    RunCategoryUnfold(ps, i);
    var p := RowScan.Scan(ps[i]);
    if p.status == Returned(true) {
      assert done + (p.records + RunCategory(ps[i + 1..]).records)
          == done + p.records + RunCategory(ps[i + 1..]).records;
    }
  }
}
