/**
 * `main(crawler)` of the scraper: optionally crawl and write the URL file,
 * read the URL file back, extract every project on the thread pool, and
 * write the records in the JSON envelope.
 *
 * The file system holds one URL file: `stored` is its contents when the
 * crawl is skipped. The pool's schedule is a parameter; `Dispatch.RunPool`
 * shows the outcome is the same for every schedule.
 */
module Scraper {
  import opened Wrappers
  import opened Records
  import opened Lines
  import opened Crawler
  import opened Dispatch
  import opened Envelope
  import Drivers

  /** The URLs `main` extracts: the lines of the crawl's URL file, or of the stored one. */
  function MainUrls(crawler: bool, stored: string, visible: seq<seq<string>>): seq<string> {
    SplitLines(if crawler then UrlFile(Flatten(visible[..CrawlPasses(visible)])) else stored)
  }

  /** What is written to `data.json`: nothing when `starmap` raised. */
  function Output(outcome: Outcome): Option<Json> {
    match outcome
    case Extracted(records) => Some(Wrap(records))
    case _ => None
  }

  /**
   * `main(crawler)`: the URL file is the crawl's when `crawler` is set and
   * the stored one otherwise; the URLs are its lines; the output is the
   * in-order `starmap` result in the envelope, or nothing when the pool or
   * a task raised.
   *
   * The pool's run is given as `order` (the `k`-th task to run handles URL
   * `order[k]`) and `workers` (it runs on pool thread `workers[k]`); any
   * schedule `starmap` may choose is allowed. `main` runs in a fresh process,
   * so no thread holds a driver yet. The crawl's driver lives on the main
   * thread and is quit there; a pool thread gets a slot only by running a
   * task, and then holds a driver of its own, so no task is handed the quit
   * one. One browser is started for the crawl and one per pool thread that
   * ran a task.
   */
  method ScrapeMain(drivers: Drivers.DriverCache, crawler: bool, stored: string,
                    visible: seq<seq<string>>, web: Web, order: seq<nat>, workers: seq<Drivers.WorkerId>)
    returns (file: string, urls: seq<string>, out: Option<Json>)
    requires drivers.Valid() && drivers.cache == map[] && drivers.quit == {}
    requires |order| == |MainUrls(crawler, stored, visible)| && |workers| == |order|
    requires forall k | 0 <= k < |order| :: order[k] < |order|
    requires forall i | 0 <= i < |order| :: i in order
    requires forall k | 0 <= k < |workers| :: 1 <= workers[k] <= PoolSize(|workers|)
    modifies drivers
    ensures drivers.Valid()
    ensures forall w :: w in drivers.cache <==> (crawler && w == MAIN_THREAD) || w in workers
    ensures crawler ==> drivers.cache[MAIN_THREAD] in drivers.quit
    ensures forall w | w in workers :: drivers.cache[w] !in drivers.quit
    ensures drivers.created <= (if crawler then 1 else 0) + PoolSize(|urls|)
    ensures !crawler ==> file == stored
    ensures crawler ==> file == UrlFile(Flatten(visible[..CrawlPasses(visible)]))
    ensures urls == SplitLines(file)
    ensures out == Output(Starmap(Extractor(web), urls))
  {
    file := stored;
    if crawler {
      var crawled;
      crawled, file := IndiegogoCrawler(drivers, MAIN_THREAD, visible);
    }
    urls := SplitLines(file);
    assert urls == MainUrls(crawler, stored, visible);
    assert forall w | w in drivers.cache :: w == MAIN_THREAD;
    var outcome := RunPool(drivers, Extractor(web), urls, order, workers);
    out := Output(outcome);
  }

  /**
   * End to end: after a crawl that gathered `links`, none of them holding a
   * line break and every page loading, the JSON document holds one record
   * per crawled link, in crawl order, and reading it back gives exactly
   * those records. An empty crawl writes no document.
   */
  lemma {:induction false} CrawlToJson(links: seq<string>, web: Web)
    requires forall i | 0 <= i < |links| :: NoLineBreak(links[i]) && links[i] in web
    ensures Output(Starmap(Extractor(web), SplitLines(UrlFile(links)))).None? <==> links == []
    ensures links != [] ==>
      var out := Output(Starmap(Extractor(web), SplitLines(UrlFile(links))));
      && out.Some?
      && var rs := LoadRecords(out.value);
      && rs.Some?
      && |rs.value| == |links|
      && forall i | 0 <= i < |links| :: "url" in rs.value[i] && rs.value[i]["url"] == Str(links[i])
  {
    ReadBackUrlFile(links);
    ExtractAllInOrder(links, web);
    if links != [] {
      var rs := Starmap(Extractor(web), links).records;
      LoadWrap(rs);
    }
  }
}
