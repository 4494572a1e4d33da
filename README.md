# Indiegogo scraper and analysis, modelled in Dafny

This project models the core of a small data-mining exercise with two stages.

The first stage is an Indiegogo scraper. It crawls the project listing for
project links and writes them to a URL file. It reads that file back and
extracts one ten-key record per project page on a thread pool. Each field of
a page is normalised with its own rules:
- whitespace is collapsed;
- numbers are read from their digit characters, with -1 when there is none;
- the goal is cut at `"of "`;
- the flexible-goal flag is a case-insensitive substring test.

The records are written inside a `{"records": {"record": [...]}}` envelope.

The second stage is the analysis. It loads the envelope. It can normalise the
rows: the union of their keys becomes the columns and blanks are filled with
defaults. It computes the minimum and maximum of the four numeric columns.

The browser is a `Document`: a map from element selector to text. A selector
that is missing stands for the lookup raising. The listing being scrolled is
the sequence of link lists that successive crawl passes see. The
thread-local driver slot is a class holding a map from thread id to driver.
The thread pool's run is an arbitrary completion order plus an assignment of
tasks to pool threads.

Modules, one per component:
- `Whitespace`: `' '.join(s.split())`.
- `Digits`: the digit filter, `int()` and `str()`.
- `Search`: `str.find`, slicing and `lower()`.
- `Fields`: the field normalisers.
- `Records`: the record dict.
- `Drivers`: `Driver.create_driver`.
- `Lines`: the URL file and `splitlines`.
- `Crawler`: `indiegogo_crawler`.
- `Dispatch`: `ThreadPool` and `starmap`.
- `Envelope`: the JSON document.
- `Scraper`: `main` of the scraper.
- `Analysis`: `normalize_data` and `problem_2_a`.

## Model

| member | source | states |
|---|---|---|
| Whitespace.Join | ex1/code/problem1/problem1.py:110 | `' '.join(ws)` of a non-empty word list starts with its first word |
| Whitespace.SplitWords | ex1/code/problem1/problem1.py:110 | `str.split()` yields non-empty words with no whitespace inside |
| Whitespace.Split | ex1/code/problem1/problem1.py:110 | `split()` never yields more words than the text has characters |
| Whitespace.SplitEmpty | ex1/code/problem1/problem1.py:110 | `split()` yields no words exactly when the text is all whitespace (or empty) |
| Whitespace.SplitJoin | ex1/code/problem1/problem1.py:110 | splitting words joined by single spaces gives the same words back |
| Whitespace.JoinCollapsed | ex1/code/problem1/problem1.py:110 | joining words with single spaces gives collapsed text |
| Whitespace.CollapsedFixpoint | ex1/code/problem1/problem1.py:119 | text that is already collapsed is left unchanged |
| Whitespace.CollapseShape | ex1/code/problem1/problem1.py:110 | the collapse has no leading or trailing whitespace, no two adjacent whitespace characters and only ' ' as separator; a text is unchanged by it iff it already has that shape |
| Whitespace.CollapseIdempotent | ex1/code/problem1/problem1.py:119 | collapsing twice is collapsing once |
| Whitespace.ConcatSplit | ex1/code/problem1/problem1.py:130 | the words of `split()`, concatenated, are the text's non-whitespace characters in order |
| Whitespace.CollapseKeepsNonSpace | ex1/code/problem1/problem1.py:130 | the collapse keeps every non-whitespace character, in order, and adds none |
| Whitespace.Collapse | ex1/code/problem1/problem1.py:110 | `' '.join(s.split())` always has the collapsed shape: no leading, trailing or doubled whitespace, only ' ' between words |
| Whitespace.SplitSeparated | ex1/code/problem1/problem1.py:110 | a non-empty whitespace run splits the text into the words before it followed by the words after it |
| Whitespace.JoinAppend | ex1/code/problem1/problem1.py:110 | joining two non-empty word lists puts exactly one space between the two joined parts |
| Whitespace.CollapseSeparated | ex1/code/problem1/problem1.py:110 | a whitespace run of any length between two parts that each hold a non-whitespace character becomes exactly one space |
| Digits.ParseInt | ex1/code/problem1/problem1.py:141-142 | `int()` of the digit string fails exactly when it is empty |
| Digits.DigitsOf | ex1/code/problem1/problem1.py:141 | the digit filter (`c.isdigit()` over the text, also at :154, :165 and :176) yields only digits and never more characters than the text has |
| Digits.NatToString | ex1/code/problem1/problem1.py:195 | `str(n)` is a non-empty digit string without a leading zero |
| Digits.ParseNatToString | ex1/code/problem1/problem1.py:195 | `int(str(n)) == n` |
| Digits.NatToStringInjective | ex1/code/problem1/problem1.py:195 | different numbers have different `str()` spellings |
| Digits.DigitsOfCollapse | ex1/code/problem1/problem1.py:140-141 | the digits kept after the collapse are the digits of the raw text |
| Digits.ShortDigits | ex1/code/problem1/problem1.py:153-154 | the digits of a text of at most one character are that character when it is a digit (worth its digit value) and nothing otherwise |
| Search.Find | ex1/code/problem1/problem1.py:153 | `find` is -1 iff the pattern occurs nowhere, else its first occurrence |
| Search.SliceFrom | ex1/code/problem1/problem1.py:153 | Python's `s[i:]`: a start in range gives the suffix from it, a start past the end gives nothing, a negative start counts back from the end and is clamped at 0 |
| Search.Lower | ex1/code/problem1/problem1.py:188 | `lower()` keeps the length and maps each character on its own, changing only 'A' to 'Z' |
| Search.SliceFromMinusOne | ex1/code/problem1/problem1.py:153 | `s[-1:]` is the last character alone, or empty |
| Fields.TextField | ex1/code/problem1/problem1.py:106-132 | a text field is 'Unknown' when the lookup failed; otherwise it is the lookup's text with `' '.join(s.split())` applied, so it is collapsed and keeps exactly the text's non-whitespace characters, in order |
| Fields.NumericField | ex1/code/problem1/problem1.py:136-144 | a numeric field is -1 or non-negative; it is -1 exactly when the lookup failed or the text has no digit; otherwise it is the number the text's digits spell, in order |
| Fields.GoalField | ex1/code/problem1/problem1.py:148-156 | the goal is -1 or non-negative, -1 when the lookup failed; with `"of "` present it is the number spelled by the digits from the first `"of "` on; without it, `find` gives -1 and `[-1:]` keeps the last character, so it is the digit the collapsed text ends with, or -1 |
| Fields.FlexibleField | ex1/code/problem1/problem1.py:182-190 | the flag is true iff the lower-cased collapsed text contains "flexible", false when the lookup failed |
| Fields.PledgedExample | ex1/code/problem1/problem1.py:139-142 | "$12,345 raised" gives 12345 |
| Fields.GoalExample | ex1/code/problem1/problem1.py:151-154 | "73% of $10,000" gives the goal 10000 |
| Fields.TitleExample | ex1/code/problem1/problem1.py:117-119 | "  Neo   PS1 " gives the title "Neo PS1" |
| Records.ExtractProjectData | ex1/code/problem1/problem1.py:194-205 | the record's keys are exactly the ten schema keys, whatever the page holds |
| Records.PageField | ex1/code/problem1/problem1.py:106-205 | each page field of the record is its own normaliser (text, number, goal or flag) applied to its own selector's lookup |
| Records.RecordTyped | ex1/code/problem1/problem1.py:106-205 | every record is well typed: strings for the text fields, -1 or a count for the numbers, a boolean flag |
| Records.RecordSchema | ex1/code/problem1/problem1.py:194-205 | every record has exactly the ten keys, with strings for the text fields, -1 or a count for the numbers and a boolean flag, however many lookups failed; its id reads back as `index_id + 1`; its url is the input URL |
| Records.FieldIsolation | ex1/code/problem1/problem1.py:106-190 | a page field's value depends only on its own selector's lookup |
| Records.MissingFieldFallsBack | ex1/code/problem1/problem1.py:106-190 | a failed lookup gives 'Unknown' for text, -1 for numbers, False for the flag |
| Records.DistinctIds | ex1/code/problem1/problem1.py:195 | records of different list positions have different ids |
| Drivers.DriverCache.constructor | ex1/code/problem1/problem1.py:27 | an empty thread-local store: no driver cached, none started |
| Drivers.DriverCache.CreateDriver | ex1/code/problem1/problem1.py:46-54 | a thread with a cached driver gets it back and nothing is started; otherwise exactly one driver is started, cached for that thread and returned; one driver per thread, distinct threads hold distinct drivers |
| Drivers.DriverCache.Quit | ex1/code/problem1/problem1.py:87 | `quit()` marks the driver quit and leaves the thread's cache slot in place |
| Drivers.QuitDriverStaysCached | ex1/code/problem1/problem1.py:48-53 | after `quit()`, `create_driver()` on the same thread returns the quit driver |
| Lines.WriteUrlFile | ex1/code/problem1/problem1.py:89-91 | the written file is each URL followed by '\n', in list order |
| Lines.ReadBackUrlFile | ex1/code/problem1/problem1.py:266-267 | `splitlines` of the written file is the URL list, when no URL holds a line boundary |
| Lines.LineBreakInUrlSplits | ex1/code/problem1/problem1.py:266-267 | a URL holding '\n' comes back as two lines |
| Lines.SplitLines | ex1/code/problem1/problem1.py:267 | no line `splitlines` returns holds a line boundary |
| Lines.UrlFile | ex1/code/problem1/problem1.py:89-91 | the URL file is empty iff there are no URLs, and otherwise ends with '\n' |
| Crawler.FlattenPrefix | ex1/code/problem1/problem1.py:78 | the list only grows: after more passes, the earlier list is a prefix |
| Crawler.FlattenGrows | ex1/code/problem1/problem1.py:74-78 | when every pass sees a link, `k` passes gather at least `k` links |
| Crawler.PassesFrom | ex1/code/problem1/problem1.py:74-79 | counting passes from `p` stops at the first pass count whose links reach 300, or at the end of the listing, and no earlier count from `p` reaches 300 |
| Crawler.CrawlPassesUnique | ex1/code/problem1/problem1.py:74-79 | a pass count with the loop's exit conditions is exactly the crawl's pass count |
| Crawler.CollectUrls | ex1/code/problem1/problem1.py:74-79 | the loop runs exactly `CrawlPasses(visible)` passes; the gathered list is every pass's links in page order, duplicates kept; the loop stops at the first pass reaching 300 (it may overshoot), and reaches 300 when every pass sees a link |
| Crawler.RepeatedPassDuplicates | ex1/code/problem1/problem1.py:76-78 | two passes over the same 150 cards reach 300 with 150 distinct links |
| Crawler.AppendNew | ex1/code/problem1/problem1.py:78 | appending only unseen links keeps the list duplicate-free and a superset of the old list in order |
| Crawler.CollectUniqueUrls | ex1/code/problem1/problem1.py:74-79 | the de-duplicated loop gathers `GatherNew` of the passes run: distinct links, exactly those seen; it stops at the first pass count whose distinct links reach 300, or when the listing is exhausted |
| Crawler.GatherNewMembers | ex1/code/problem1/problem1.py:76-78 | a link is among the de-duplicated links of some passes exactly when one of those passes saw it |
| Crawler.IndiegogoCrawler | ex1/code/problem1/problem1.py:57-91 | the crawl gathers exactly the links of its first `CrawlPasses(visible)` passes, in page order, quits the main thread's driver (which stays cached), leaves every other slot and driver as it was, starts a driver only when the thread had none, and writes the URL file |
| Dispatch.PoolSize | ex1/code/problem1/problem1.py:271 | `min(4, len(urls))`: at most 4 and at most the URL count, equal to one of them, and positive for a non-empty list |
| Dispatch.ExtractAllInOrder | ex1/code/problem1/problem1.py:271-273 | `starmap` gives no records exactly for an empty list or a page that does not load; otherwise one record per URL, in list order, record `i` with url `urls[i]` and id `i + 1` |
| Dispatch.Starmap | ex1/code/problem1/problem1.py:271-273 | an empty URL list raises in the pool (no processes); otherwise any failing task raises; else record `i` is task `i`'s result on `urls[i]`, one per URL |
| Dispatch.ProjectTask | ex1/code/problem1/problem1.py:94-104 | a task gives a record iff its page loads; the record is well typed and holds the task's URL |
| Dispatch.Gather | ex1/code/problem1/problem1.py:273 | whatever order the tasks finish in, the result is the in-order `starmap` result |
| Dispatch.StartDrivers | ex1/code/problem1/problem1.py:101 | every pool thread that ran a task holds a driver; the new slots are exactly the old ones plus the threads that ran a task; every old slot keeps its driver, nothing is quit, and a newly started driver is not a quit one |
| Dispatch.RunPool | ex1/code/problem1/problem1.py:271-278 | the pool's outcome is the in-order `starmap` result; it starts at most `min(4, len(urls))` drivers; the new slots are exactly the old ones plus the threads that ran a task, old slots keep their drivers and nothing is quit; a pool thread without a driver before gets one that was not quit |
| Envelope.RecordToJson | ex1/code/problem1/problem1.py:220-224 | a record is written as an object with the same keys, each value written as a scalar that reads back as the record's value |
| Envelope.Wrap | ex1/code/problem1/problem1.py:220-224 | the written document holds, under `records`/`record`, a list with each record written in order |
| Envelope.JsonToRecord | ex1/code/problem2/problem2.py:36 | an object of scalars reads as a row with the same keys, each value the one its scalar holds (writing it again gives that scalar); anything else is no record |
| Envelope.Unwrap | ex1/code/problem2/problem2.py:35 | `data["records"]["record"]` succeeds iff both keys are there on objects |
| Envelope.LoadRecords | ex1/code/problem2/problem2.py:33-36 | the load succeeds iff there is a list under `records`/`record` and every element reads as a record; then one row per element, each row the element read as a record |
| Envelope.RowsOf | ex1/code/problem2/problem2.py:36 | a list reads as rows iff each element is a record, one row per element in order |
| Envelope.RecordRoundTrip | ex1/code/problem1/problem1.py:227-229 | a written record reads back as the same record |
| Envelope.LoadWrap | ex1/code/problem2/problem2.py:33-35 | loading the document the writer produced gives exactly the written list, in order |
| Envelope.BareListFails | ex1/code/problem2/problem2.py:35 | a bare list of records, or an envelope without the outer `records` key, does not load |
| Scraper.ScrapeMain | ex1/code/problem1/problem1.py:234-280 | the URL file is the stored one or exactly the crawl's links of its first `CrawlPasses(visible)` passes; the URLs are its lines; the output is the in-order `starmap` result wrapped, or nothing when the pool or a task raised; for every completion order and every assignment of tasks to pool threads `1..min(4, len(urls))`, from a fresh process the cache ends up holding exactly the main thread's quit crawl driver (when crawling) and a live driver for each pool thread that ran a task, with at most one browser started for the crawl plus `min(4, len(urls))` for the pool |
| Scraper.CrawlToJson | ex1/code/problem1/problem1.py:258-280 | after a crawl whose links have no line breaks and all load, the JSON holds one record per link in crawl order, and nothing for an empty crawl |
| Analysis.AllColumns | ex1/code/problem2/problem2.py:60-62 | the columns are exactly the keys found in some record |
| Analysis.FillRow | ex1/code/problem2/problem2.py:65-75 | a filled row has exactly the columns that are present or have a default; a present value is kept, a blank gets its default |
| Analysis.NormalizeData | ex1/code/problem2/problem2.py:48-77 | one row per record; the columns are the key union; present values are kept; a listed blank gets its default; an unlisted blank stays blank |
| Analysis.FillKeepsComplete | ex1/code/problem2/problem2.py:66-75 | a row that has every column is not changed by the fill, so a -1 stays -1 |
| Analysis.NormalizeUniform | ex1/code/problem2/problem2.py:57-75 | records that share one key set normalise to themselves over exactly those columns |
| Analysis.Column | ex1/code/problem2/problem2.py:92-93 | `astype(int)` of a column succeeds iff there are rows and every cell is an integer or boolean |
| Analysis.CastInt | ex1/code/problem2/problem2.py:93 | a cell casts iff it is present and not text; an integer casts to itself, a boolean to 1 or 0 |
| Analysis.MinMaxBounds | ex1/code/problem2/problem2.py:97-98 | min and max occur in the column and bound every value |
| Analysis.ColumnMinMax | ex1/code/problem2/problem2.py:97-98 | an empty column gives nothing (the `int(nan)` raises); otherwise its min and max |
| Analysis.Problem2A | ex1/code/problem2/problem2.py:87-101 | stats exist iff all four columns cast; their keys are exactly the four numeric variables, each holding its column's min and max |
| Analysis.NumericalVarsAreNumberKeys | ex1/code/problem2/problem2.py:87-88 | the analysed variables are the extractor's four numeric fields |
| Analysis.ExtractedColumns | ex1/code/problem2/problem2.py:92-93 | extracted records always pass the cast, and every numeric value is -1 or a count |
| Analysis.SentinelIsMinimum | ex1/code/problem2/problem2.py:97 | a -1 sentinel in any extracted record is its column's minimum |
| Analysis.ScrapedDataHasStats | ex1/code/problem2/problem2.py:161-163 | the scraper's output loads back as the extracted records and yields stats for all four variables |

## Left out

- Selenium is not modelled (`get`, `find_element(s)`, `get_attribute`, `execute_script`, `quit`). A page is a map from selector to text, and a missing selector stands for any exception, or for `get_attribute` giving None. `driver.get` failing is a URL absent from the `Web` map.
- The threads, `threading.local`, `gc.collect` and the `Driver.__del__` finalizer are not modelled. The pool is sequentialised: an arbitrary completion order plus a thread per task. Each task gets its driver from `create_driver()` (ex1/code/problem1/problem1.py:101). The model performs those calls before the page work and treats the page a task loads as depending only on its URL, given a driver that was not quit. `Scraper.ScrapeMain` takes the completion order and the task-to-thread assignment as parameters and proves, for every such schedule, that every pool thread that ran a task holds such a driver. Which schedule a real `ThreadPool` picks is not modelled.
- `time.sleep`, the `print` calls, `os.makedirs` and all file I/O are left out. The URL file is its contents as a string. The JSON file is a `Json` value, without `indent=2` or text encoding.
- `str.isdigit` and `str.lower` are modelled on ASCII only. Python's `isdigit` and `int()` both accept every Unicode decimal digit (category Nd), so `int('٣')` is 3 and "٣ days" gives 3 in the source but -1 in the model. Digits that `isdigit` accepts but `int()` rejects, such as '²', make the source's `int()` raise, so the whole field is -1; the model drops them and reads the remaining ASCII digits, so "5²" gives -1 in the source but 5 in the model.
- `str.split` uses Python's `str.isspace` set. Other Unicode whitespace categories beyond that set are not modelled.
- Crawler.CollectUrls: the crawl loop has no exit for an exhausted listing. The model runs out of given snapshots where the source would scroll forever, and proves the 300 target only when every pass sees a link.
- Drivers.DriverCache.CreateDriver: a browser that fails to start (`Edge(...)` raising at ex1/code/problem1/problem1.py:40 and :51) is not modelled; in the source that task raises, `starmap` raises and no data.json is written, and during the crawl `main` aborts. The model always starts the browser.
- Fields.NumericField: `int()` of a digit string longer than 4300 digits raises ValueError under CPython's integer-string conversion limit (3.11 and later), which the bare `except` at ex1/code/problem1/problem1.py:141, :165 and :176 turns into -1. The model returns the number, because the limit depends on the interpreter version and configuration.
- Fields.GoalField: the same 4300-digit limit on `int()` at ex1/code/problem1/problem1.py:154 is not modelled; the model returns the number.
- The crawl's footer lookup (`find_element` at line 71) raising, and a card whose `href` is None (written as the text "None"), are not modelled.
- Digits.ParseInt: `int()` of a digit string longer than 4300 digits raises ValueError under CPython's integer-string conversion limit (3.11 and later); the model parses any length. It also reads only ASCII digits, while `int()` accepts every Unicode decimal digit.
- Analysis.CastInt: a text cell does not cast in the model, while pandas' `astype(int)` parses numeric text such as "12" to 12. Integers are unbounded in the model, while pandas casts to int64 and wraps or raises outside that range.
- Analysis.Column: a text cell makes `astype(int)` fail in the model. pandas would parse numeric text such as "12".
- Analysis.Column: integers are unbounded. pandas holds an integer column in 64 bits, and a value outside int64 makes `astype(int)` at ex1/code/problem2/problem2.py:93 wrap or raise; the model casts every integer to itself.
- The mean and std of `problem_2_a` are floating point, and the plots of `problem_2_b_1` and `problem_2_b_2` are not modelled either.
- `pd.json_normalize` flattening of nested objects is not modelled, since records hold scalars only.
- Envelope.JsonToRecord: the `Json` type has no null and no floats, and a row holding null, a float or a nested array or object reads as no record. `json.load` and `pd.DataFrame` would accept such rows. Every writer in the repository writes flat records of strings, integers and booleans.
- pandas' dtype changes are not modelled: an integer column with blanks becomes float before the fill.
- code/problem1/problem1.py, an earlier draft, is not part of this model.
- ex1/code/problem2/problem1_dummy_data_generator.py is not part of this model, since it generates random data.

## Findings

| source | as written | input that shows it | evidently intended | confidence | as-written member | corrected member |
|---|---|---|---|---|---|---|
| ex1/code/problem1/problem1.py:74-79 | every pass appends all currently visible links, so cards seen in an earlier pass are appended again | two passes before new cards render, 150 cards each: 300 links, only 150 projects | stop at 300 distinct projects, appending only links not yet gathered | medium, not executed | Crawler.RepeatedPassDuplicates | Crawler.CollectUniqueUrls |

Other observations:
- The collection loop at ex1/code/problem1/problem1.py:74-79 neither de-duplicates links nor stops on an exhausted listing; `Crawler.CollectUrls` models it as written.
- The driver quit at the end of the crawl stays in the main thread's cache slot (`Drivers.QuitDriverStaysCached`). Only the pool threads extract, and each starts its own driver, so no extraction is handed the quit one (`Scraper.ScrapeMain`).
