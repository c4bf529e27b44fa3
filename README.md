# TrackMaxx results scraper — a Dafny model

`scrape_trackmaxx.py` collects race results from the paged result listings of
trackmaxx.ch. A `ScrapeTrackMaxx` object holds a race id, a list of category
ids and a list `data` of `ResultData` records. `fetch_data` empties `data`.
It then visits the categories in order, and for each one requests pages
0, 1, 2, … until `_fetch_data` returns `False`. `_fetch_data` walks the rows
of one page's results table:

- a row of at most 4 cells is skipped;
- a wider row whose category cell (`cols[9]`) is empty ends the category
  (`return False`);
- any other row becomes a record. Its start number is `cols[8]`. Its
  category is `cols[9]` cut at the first `:`. Its time text is `cols[5]`,
  which is read with `strptime("%H:%M:%S")` and stored as
  `(hour*60 + minute)*60 + second` seconds.

`ResultData.__str__` writes a record as four comma-separated fields.

The model has these modules:

| module | file | contents |
|---|---|---|
| `Wrappers` | `wrappers.dfy` | `Option` and `Result` |
| `Text` | `text.dfy` | Python's `str.split` on one character, its inverse `Join` (`','.join`), and `str(n)` for naturals with its inverse |
| `ClockTime` | `clock_time.dfy` | `strptime(text, "%H:%M:%S")` as `Parse`, the seconds conversion, and `Format`, a zero-padded `HH:MM:SS` writer that the scraper does not have, used only to state a round trip for `Parse` |
| `Results` | `result_data.dfy` | `ResultData`, the category cut, `__str__` as `Serialize`, and its inverse `ParseLine` |
| `RowScan` | `scan.dfy` | what `_fetch_data` computes on one page, as the functions `RowStep` and `Scan` |
| `Pagination` | `pagination.dfy` | what `fetch_data` computes, as `RunCategory` (one category's pages) and `Fetch` (every category) |
| `Scraper` | `scraper.dfy` | the class `ScrapeTrackMaxx`. Its methods update `data` in place with the source's loops, and each is proved equal to the matching function |
| `Scenarios` | `scenarios.dfy` | concrete inputs worked through the model |


The network is replaced by data. `FetchPage` takes a page as the cell
texts of its rows. `FetchData` takes a function from a category id to the
sequence of that category's pages, where page `i` is what the URL ending in
`&p=i` would return.

A page scan ends in one of two ways: it returns a boolean (`Returned(more)`),
or it raises (`Raised(error)`). Python lets two exceptions escape the row
loop, and the model keeps both as error outcomes rather than preconditions:

- `IndexError`, for a row of 5 to 8 cells (at `cols[8]`) or of 9 cells (at
  `cols[9]`);
- the `ValueError` of `strptime`, for a time text that is not `%H:%M:%S`.

When such an exception escapes, the records already appended stay in `data`.
`FetchData` reports them as `Err`, with `data` holding what was gathered.

Two consequences of the code are easy to miss:

- A result row whose time text is empty makes `strptime` raise `ValueError`
  at line 53 (`BadTimeRaises`). The time is not treated as a missing value.
- A page with no rows falls through the row loop to `return True` at line 59
  (`EmptyPageContinues`), so the next page is requested. Only a sentinel row
  (lines 57-58) ends a category.

## Model

| member | source | states |
|---|---|---|
| Results.CategoryName | scrape_trackmaxx.py:51-52 | the stored category is a prefix of `cols[9]` with no colon in it; when it is shorter than `cols[9]`, the next character of `cols[9]` is the first colon (so it is the whole text when there is no colon, and empty when the text starts with one) |
| Results.CategoryNameIdempotent | scrape_trackmaxx.py:52 | cutting an already cut category changes nothing |
| Results.Serialize | scrape_trackmaxx.py:16-22 | `__str__` as the `Join` on `,` of the start number, the category, the time text and `str(time_seconds)`; stated by SerializeSpelledOut, SerializeFields, SerializeRoundTrip and CommaBreaksRoundTrip |
| ClockTime.Parse | scrape_trackmaxx.py:53 | every time `strptime("%H:%M:%S")` accepts has hour ≤ 23, minute ≤ 59 and second ≤ 59 |
| ClockTime.ParseAccepts | scrape_trackmaxx.py:53 | `Parse(text)` gives `t` if and only if `text` is `h:m:s`, where each field is one or two ASCII digits, is in range, and spells out the hour, minute and second of `t` |
| ClockTime.FormatRoundTrip | scrape_trackmaxx.py:53 | parsing the zero-padded `HH:MM:SS` spelling of any valid time gives that time back |
| ClockTime.Seconds | scrape_trackmaxx.py:54-55 | `(hour*60 + minute)*60 + second` lies in 0..86399 for every time `strptime` accepts |
| ClockTime.SecondsInjective | scrape_trackmaxx.py:54-55 | the seconds value determines the hour, minute and second it came from |
| ClockTime.SecondsOnto | scrape_trackmaxx.py:54-55 | every number of seconds below 86400 is the seconds value of a valid time |
| Results.SerializeSpelledOut | scrape_trackmaxx.py:16-22 | `__str__` is start number, `,`, category, `,`, time text, `,`, `str(time_seconds)` |
| Results.SerializeFields | scrape_trackmaxx.py:16-22 | when no text field holds a comma, splitting the line on `,` gives exactly the four fields |
| Results.SerializeRoundTrip | scrape_trackmaxx.py:16-22 | when no text field holds a comma, reading the line back gives the record |
| Results.CommaBreaksRoundTrip | scrape_trackmaxx.py:16-22 | when some field holds a comma, the line splits into more than four fields and cannot be read back |
| Text.DecimalRoundTrip | scrape_trackmaxx.py:21 | the digits `str` writes for a natural number read back as that number |
| Text.Decimal | scrape_trackmaxx.py:21 | `str(n)` is a non-empty string of digits with no leading zero, except for `"0"` itself |
| RowScan.Scan | scrape_trackmaxx.py:44-59 | a page scan appends at most one record per row |
| RowScan.RowStep | scrape_trackmaxx.py:45-58 | the branch taken for one row: skipped exactly when it has at most 4 cells, ends the category exactly when it has at least 10 cells and an empty `cols[9]`, and a record it appends carries `cols[8]` and `cols[5]`, a colon-free category and seconds below 86400; the row lemmas below state each branch |
| RowScan.NarrowRowSkipped | scrape_trackmaxx.py:46 | a row of at most 4 cells has no effect: the scan with it equals the scan without it |
| RowScan.ResultRowAppended | scrape_trackmaxx.py:47-56 | a result row after rows that let the scan go on appends exactly one record after the earlier ones: start number `cols[8]`, category `cols[9]` up to its first colon, time text `cols[5]`, and that time in seconds; the scan then goes on with the next row |
| RowScan.SentinelEndsPage | scrape_trackmaxx.py:51-58 | a wide row with an empty category ends the scan with `False`: it makes no record, the rows after it are not examined, and the records appended before it are kept |
| RowScan.BadTimeRaises | scrape_trackmaxx.py:53 | a result row whose time text `strptime` rejects raises, and the records appended before it are kept |
| RowScan.ShortRowRaises | scrape_trackmaxx.py:48-49 | a row of 5 to 8 cells raises `IndexError` at `cols[8]`, and one of 9 cells at `cols[9]`; the records appended before it are kept |
| RowScan.EmptyPageContinues | scrape_trackmaxx.py:44-59 | a page with no rows appends nothing and returns `True` |
| RowScan.ScanContinues | scrape_trackmaxx.py:44-59 | a page returns `True` if and only if every one of its rows is skipped or a valid result |
| RowScan.ScanWellFormed | scrape_trackmaxx.py:51-56 | every record a scan appends has a colon-free category, and seconds below 86400 read off its own time text |
| RowScan.ScanAppend | scrape_trackmaxx.py:44-59 | scanning two blocks of rows in a row is scanning the first, then, when it returned `True`, the second after it |
| Pagination.RunCategory | scrape_trackmaxx.py:34-37 | the inner `while` loop over one category's pages; stated by RunCategoryAppend, StopsAtFirstEnd and EndsWithinPages |
| Pagination.RunCategoryAppend | scrape_trackmaxx.py:34-37 | one category's pages in two blocks: the second block is requested only when the first returned `True` throughout |
| Pagination.StopsAtFirstEnd | scrape_trackmaxx.py:34-37 | when pages 0..k-1 return `True` and page k does not, the category is pages 0..k in increasing order: it ends with page k's outcome, and its records are those pages' records concatenated |
| Pagination.EndsWithinPages | scrape_trackmaxx.py:36 | a category's loop ends within the given pages if and only if one of them returns `False` or raises |
| Pagination.FetchAppend | scrape_trackmaxx.py:33-37 | the categories are visited in order, and a later category is visited only if every earlier one ended with `False` |
| Pagination.FetchCompleted | scrape_trackmaxx.py:31-38 | `fetch_data` returns normally if and only if every category ends with `False`; then its result is the records of the categories, in the order of `cat_ids` |
| Pagination.FetchResumes | scrape_trackmaxx.py:33-37 | after the first n categories have completed, the result is theirs followed by the fetch of the remaining ids |
| Pagination.Fetch | scrape_trackmaxx.py:31-38 | `fetch_data` over `cat_ids` in order; stated by FetchAppend, FetchCompleted and FetchResumes |
| Scraper.ScrapeTrackMaxx.constructor | scrape_trackmaxx.py:26-29 | the object keeps the race id and the category ids, and starts with no records |
| Scraper.ScrapeTrackMaxx.FetchPage | scrape_trackmaxx.py:40-59 | the row loop leaves `data` as its old value followed by the page's records, and returns or raises as `Scan` says |
| Scraper.ScrapeTrackMaxx.FetchCategory | scrape_trackmaxx.py:34-37 | the page loop (`while self._fetch_data(url + str(i)): i += 1`) appends the category's records to `data`, and ends as `RunCategory` says |
| Scraper.ScrapeTrackMaxx.FetchData | scrape_trackmaxx.py:31-38 | `data` is reset, then left as `Fetch` says; the call returns `data` when every category completed, and the escaping exception otherwise |
| Scenarios.ParseAcceptsExamples | scrape_trackmaxx.py:53-55 | `"01:02:03"` and `"1:2:3"` both read as 1 h 2 min 3 s, which is 3723 seconds |
| Scenarios.ParseRejectsRanges | scrape_trackmaxx.py:53 | `"24:00:00"` and `"0:60:00"` are rejected |
| Scenarios.ParseRejectsShapes | scrape_trackmaxx.py:53 | `""`, `"02:03"` and `"01:02:03.5"` are rejected |
| Scenarios.CategoryExamples | scrape_trackmaxx.py:52 | `"M30:Men 30-39"` and `"M30"` become `"M30"`, and `":Open"` becomes `""` |
| Scenarios.FirstResult | scrape_trackmaxx.py:47-56 | the row with start number `101`, time `0:41:09` and category `M30:Men 30-39` appends `ResultData("101", "M30", "0:41:09", 2469)` |
| Scenarios.FirstResultLine | scrape_trackmaxx.py:16-22 | that record's `__str__` is the line `101,M30,0:41:09,2469` |
| Scenarios.DecimalExample | scrape_trackmaxx.py:21 | `str(2469)` is `"2469"` |
| Scenarios.FirstPage | scrape_trackmaxx.py:44-59 | a page of a header row and two results appends both, in order, and returns `True` |
| Scenarios.SecondPage | scrape_trackmaxx.py:51-58 | a page holding only a sentinel row returns `False` and appends nothing |
| Scenarios.TwoResultsThenEnd | scrape_trackmaxx.py:31-38 | a category with two results on page 0 and a sentinel on page 1 gives exactly those two records, and page 2 is never read |

## Left out

- `requests.get`, the BeautifulSoup parsing and the lookup of the
  `tbodyresults` table (scrape_trackmaxx.py:41-45) are network and HTML
  I/O. A page is given as the cell texts of its rows. A page with no such
  table, which crashes on `None`, is not modelled.
- The URL built on line 35 is not modelled. `raceId` is kept in the object
  but no model operation reads it. Page `i` of a category is the `i`-th
  element of the supplied page sequence.
- The top-level script (scrape_trackmaxx.py:62-66) is not modelled. It
  builds a scraper with fixed ids and prints a CSV header and the records.
- Scraper.ScrapeTrackMaxx.FetchData requires that every category stops
  within the pages supplied. A listing whose pages all return `True` would
  make `fetch_data` request pages forever. `Fetch` reports that case as
  `Unbounded` and no method runs it.
- ClockTime.Parse: does not accept the non-ASCII Unicode digits that
  Python's `\d` and `int` admit. Only `0`-`9` count as digits.
- ClockTime.Parse: does not keep the date part (1900-01-01) of the
  `datetime` that `strptime` returns. Only the hour, minute and second are
  read.
- Results.SerializeSpelledOut: the record's `time_seconds` is a natural
  number. A `ResultData` as first constructed has a float `0.0` there,
  which `str` writes as `0.0`. No stored record keeps that value, because
  every appended record gets an integer.
- Several time formats, rank strings, a detail endpoint, track segments,
  distance and pace are not modelled. None of them appears in
  scrape_trackmaxx.py.
- Scraper.ScrapeTrackMaxx.constructor: has no defaults for its arguments.
  Python's defaults `race_id=''` and `cat_ids=[]` (line 26) become arguments
  the caller always passes. Nothing in the model depends on them.
