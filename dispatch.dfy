/**
 * The extraction phase of `main`: `ThreadPool(min(4, len(urls)))` and
 * `pool.starmap(extract_project_data, enumerate(urls))`.
 *
 * Threads are not modelled; instead the pool's run is given as the order in
 * which the tasks happen to run (`order[k]` is the index of the URL handled
 * by the `k`-th task to run) and the pool thread that runs each of them.
 * The result is the same for every such order and assignment.
 */
module Dispatch {
  import opened Wrappers
  import opened Digits
  import opened Records
  import Drivers

  const MAX_PROCESSES := 4

  /** The thread id of the main thread, which runs the crawl; pool threads are 1, 2, ... */
  const MAIN_THREAD: Drivers.WorkerId := 0

  /** `min(4, len(urls))`. */
  function PoolSize(n: nat): (size: nat)
    ensures size <= n && size <= MAX_PROCESSES
    ensures size == n || size == MAX_PROCESSES
    ensures n > 0 ==> size > 0
  {
    if n < MAX_PROCESSES then n else MAX_PROCESSES
  }

  /** The web as the extractor sees it: the page each URL loads; a URL that is absent fails to load. */
  type Web = map<string, Document>

  datatype Outcome =
    | Extracted(records: seq<Record>)
    /** `ThreadPool(processes=0)` raises ValueError: the URL file was empty. */
    | PoolError
    /** Some task raised; `starmap` re-raises it and no record is kept. */
    | TaskError

  /**
   * A task as `starmap` calls it, with its position and URL; `None` stands
   * for the task raising.
   */
  type Task = (nat, string) -> Option<Record>

  /** What `pool.starmap(task, enumerate(urls))` returns: result `i` comes from `(i, urls[i])`, in list order. */
  function Starmap(task: Task, urls: seq<string>): (r: Outcome)
    ensures r.PoolError? <==> urls == []
    ensures r.TaskError? <==> urls != [] && exists i | 0 <= i < |urls| :: task(i, urls[i]).None?
    ensures r.Extracted? ==>
      |r.records| == |urls| && forall i | 0 <= i < |urls| :: task(i, urls[i]) == Some(r.records[i])
  {
    if |urls| == 0 then PoolError
    else if exists i | 0 <= i < |urls| :: task(i, urls[i]).None? then TaskError
    else Extracted(seq(|urls|, i requires 0 <= i < |urls| => task(i, urls[i]).value))
  }

  /** `extract_project_data(index_id, URL)`: `driver.get(URL)` raises when the page does not load. */
  function ProjectTask(web: Web, indexId: nat, url: string): (r: Option<Record>)
    ensures r.Some? <==> url in web
    ensures r.Some? ==> WellTyped(r.value) && r.value["url"] == Str(url)
  {
    if url in web then
      RecordSchema(indexId, url, web[url]);
      Some(ExtractProjectData(indexId, url, web[url]))
    else None
  }

  /** `extract_project_data` as the task function `starmap` is given. */
  function Extractor(web: Web): Task {
    (i: nat, u: string) => ProjectTask(web, i, u)
  }

  /**
   * Order preservation: when every page loads, there is one record per URL,
   * in list order, record `i` carries `urls[i]` and the id `i + 1`, and every
   * record has the ten-key schema. An empty list and a page that fails to
   * load are the only ways to get no records.
   */
  lemma ExtractAllInOrder(urls: seq<string>, web: Web)
    ensures Starmap(Extractor(web), urls).PoolError? <==> urls == []
    ensures Starmap(Extractor(web), urls).TaskError? <==>
      urls != [] && exists i | 0 <= i < |urls| :: urls[i] !in web
    ensures Starmap(Extractor(web), urls).Extracted? ==>
      var rs := Starmap(Extractor(web), urls).records;
      && |rs| == |urls|
      && forall i | 0 <= i < |urls| ::
           && WellTyped(rs[i])
           && rs[i]["url"] == Str(urls[i])
           && AllDigits(rs[i]["id"].s)
           && ParseInt(rs[i]["id"].s) == Some(i + 1)
  {
    ExtractorFails(urls, web);
    var o := Starmap(Extractor(web), urls);
    if o.Extracted? {
      ExtractedRecords(urls, web, o.records);
    }
  }

  /** A task of the extractor fails exactly on a URL whose page does not load. */
  lemma ExtractorFails(urls: seq<string>, web: Web)
    ensures (exists i | 0 <= i < |urls| :: Extractor(web)(i, urls[i]).None?) <==>
      exists i | 0 <= i < |urls| :: urls[i] !in web
  {
    if exists i | 0 <= i < |urls| :: urls[i] !in web {
      var i :| 0 <= i < |urls| && urls[i] !in web;
      assert Extractor(web)(i, urls[i]).None?;
    }
  }

  /** The records the extractor's tasks returned, one per URL, carry their URLs and ids. */
  lemma ExtractedRecords(urls: seq<string>, web: Web, rs: seq<Record>)
    requires |rs| == |urls|
    requires forall i | 0 <= i < |urls| :: Extractor(web)(i, urls[i]) == Some(rs[i])
    ensures forall i | 0 <= i < |urls| ::
      && WellTyped(rs[i])
      && rs[i]["url"] == Str(urls[i])
      && AllDigits(rs[i]["id"].s)
      && ParseInt(rs[i]["id"].s) == Some(i + 1)
  {
    forall i | 0 <= i < |urls|
      ensures WellTyped(rs[i]) && rs[i]["url"] == Str(urls[i]) && AllDigits(rs[i]["id"].s) && ParseInt(rs[i]["id"].s) == Some(i + 1)
    {
      assert Extractor(web)(i, urls[i]) == Some(rs[i]);
      TaskRecord(web, i, urls[i], rs[i]);
    }
  }

  /** A record a task returns is well typed and carries the task's URL and id. */
  lemma TaskRecord(web: Web, i: nat, url: string, r: Record)
    requires ProjectTask(web, i, url) == Some(r)
    ensures WellTyped(r) && r["url"] == Str(url) && AllDigits(r["id"].s) && ParseInt(r["id"].s) == Some(i + 1)
  {
    RecordSchema(i, url, web[url]);
  }

  /** `n` empty slots, filled in with the records as the tasks finish. */
  function Blank(n: nat): (r: seq<Record>)
    ensures |r| == n
  {
    if n == 0 then [] else Blank(n - 1) + [map[]]
  }

  /** The ids 1..n of the pool threads. */
  function PoolThreads(n: nat): (s: set<Drivers.WorkerId>)
    ensures |s| == n
    ensures forall w :: w in s <==> 1 <= w <= n
  {
    if n == 0 then {} else
      var s := PoolThreads(n - 1);
      assert n !in s;
      s + {n}
  }

  /** A set that grows only by members of 1..m grows by at most m. */
  lemma GrowthBound(before: set<Drivers.WorkerId>, after: set<Drivers.WorkerId>, m: nat)
    requires forall w | w in after :: w in before || 1 <= w <= m
    ensures |after| <= |before| + m
  {
    UnionCard(before, PoolThreads(m), after);
  }

  lemma UnionCard<T>(a: set<T>, b: set<T>, c: set<T>)
    requires c <= a + b
    ensures |c| <= |a| + |b|
  {
    assert |a + b| <= |a| + |b| by {
      assert a + b == a + (b - a);
      assert |b - a| <= |b| by { assert b - a <= b; SubsetCard(b - a, b); }
    }
    SubsetCard(c, a + b);
  }

  lemma {:induction false} SubsetCard<T>(a: set<T>, b: set<T>)
    requires a <= b
    ensures |a| <= |b|
    decreases |b|
  {
    if a != {} {
      var x :| x in a;
      SubsetCard(a - {x}, b - {x});
    }
  }

  /**
   * The results side of the pool's run: the tasks run in `order` (`order[k]`
   * is the position of the URL handled by the `k`-th task to finish), each
   * result is stored at its own position, and a task that raised makes the
   * whole `starmap` raise. Whatever the order, the outcome is the in-order
   * `starmap` result.
   */
  method Gather(task: Task, urls: seq<string>, order: seq<nat>) returns (out: Outcome)
    requires |order| == |urls|
    requires forall k | 0 <= k < |order| :: order[k] < |urls|
    requires forall i | 0 <= i < |urls| :: i in order
    ensures out == Starmap(task, urls)
  {
    var n := |urls|;
    if n == 0 {
      return PoolError;
    }
    var done: seq<Record> := Blank(n);
    var failed := false;
    for k := 0 to n
      invariant |done| == n
      invariant failed <==> exists j | 0 <= j < k :: task(order[j], urls[order[j]]).None?
      invariant forall j | 0 <= j < k && task(order[j], urls[order[j]]).Some? ::
        done[order[j]] == task(order[j], urls[order[j]]).value
    {
      var i := order[k];
      var r := task(i, urls[i]);
      if r.Some? {
        done := done[i := r.value];
      } else {
        failed := true;
      }
    }
    if failed {
      out := TaskError;
    } else {
      forall i | 0 <= i < n
        ensures task(i, urls[i]).Some? && done[i] == task(i, urls[i]).value
      {
        assert i in order;
        var j :| 0 <= j < n && order[j] == i;
      }
      out := Extracted(done);
    }
  }

  /**
   * The cache `cache` grew from `cache0` only by pool threads `1..size`,
   * each of which holds a driver outside `quit`, and every old slot keeps
   * its driver.
   */
  ghost predicate GrownFrom(cache0: map<Drivers.WorkerId, Drivers.Handle>, quit: set<Drivers.Handle>,
                            cache: map<Drivers.WorkerId, Drivers.Handle>, size: nat)
  {
    && cache0.Keys <= cache.Keys
    && (forall w | w in cache && w !in cache0 :: 1 <= w <= size && cache[w] !in quit)
    && (forall w | w in cache0 :: cache[w] == cache0[w])
  }

  /** One `create_driver()` call on pool thread `w` keeps the cache grown only by pool threads. */
  lemma GrownStep(cache0: map<Drivers.WorkerId, Drivers.Handle>, quit: set<Drivers.Handle>,
                  before: map<Drivers.WorkerId, Drivers.Handle>, after: map<Drivers.WorkerId, Drivers.Handle>,
                  w: Drivers.WorkerId, h: Drivers.Handle, size: nat)
    requires GrownFrom(cache0, quit, before, size)
    requires 1 <= w <= size
    requires w in before ==> after == before
    requires w !in before ==> after == before[w := h] && h !in quit
    ensures GrownFrom(cache0, quit, after, size)
  {
    if w !in before {
      forall v | v in after && v !in cache0 ensures 1 <= v <= size && after[v] !in quit {
        if v != w {
          assert v in before;
        }
      }
    }
  }

  /** Each of the first `k` threads in `ws` holds a cache slot. */
  ghost predicate Covers(keys: set<Drivers.WorkerId>, ws: seq<Drivers.WorkerId>, k: nat) {
    forall i | 0 <= i < k && i < |ws| :: ws[i] in keys
  }

  lemma CoversStep(keys: set<Drivers.WorkerId>, next: set<Drivers.WorkerId>, ws: seq<Drivers.WorkerId>, k: nat)
    requires k < |ws| && Covers(keys, ws, k)
    requires keys + {ws[k]} <= next
    ensures Covers(next, ws, k + 1)
  {
  }

  /** One more task's thread joins the threads holding a slot. */
  lemma SlotsStep(keys0: set<Drivers.WorkerId>, before: set<Drivers.WorkerId>, after: set<Drivers.WorkerId>,
                  ws: seq<Drivers.WorkerId>, k: nat)
    requires k < |ws|
    requires forall w :: w in before <==> w in keys0 || w in ws[..k]
    requires after == before + {ws[k]}
    ensures forall w :: w in after <==> w in keys0 || w in ws[..k + 1]
  {
    assert ws[..k + 1] == ws[..k] + [ws[k]];
  }

  /**
   * The drivers side of the pool's run: the `k`-th task to run calls
   * `create_driver()` on pool thread `workers[k]`, which starts a browser
   * only on that thread's first task. Every thread that ran a task ends up
   * with a cached driver, only pool threads gain a cache slot, and a pool
   * thread that had no driver before holds one that has not been quit.
   */
  method StartDrivers(drivers: Drivers.DriverCache, workers: seq<Drivers.WorkerId>, size: nat)
    requires drivers.Valid()
    requires forall k | 0 <= k < |workers| :: 1 <= workers[k] <= size
    modifies drivers
    ensures drivers.Valid()
    ensures drivers.quit == old(drivers.quit)
    ensures forall k | 0 <= k < |workers| :: workers[k] in drivers.cache
    ensures GrownFrom(old(drivers.cache), drivers.quit, drivers.cache, size)
    ensures forall w | w in old(drivers.cache) :: w in drivers.cache && drivers.cache[w] == old(drivers.cache)[w]
    ensures forall w :: w in drivers.cache <==> w in old(drivers.cache) || w in workers
  {
    ghost var cache0, quit0 := drivers.cache, drivers.quit;
    for k := 0 to |workers|
      invariant drivers.Valid()
      invariant drivers.quit == quit0
      invariant Covers(drivers.cache.Keys, workers, k)
      invariant GrownFrom(cache0, quit0, drivers.cache, size)
      invariant forall w :: w in drivers.cache <==> w in cache0 || w in workers[..k]
    {
      ghost var before := drivers.cache;
      var driver := drivers.CreateDriver(workers[k]);
      CoversStep(before.Keys, drivers.cache.Keys, workers, k);
      GrownStep(cache0, quit0, before, drivers.cache, workers[k], driver, size);
      SlotsStep(cache0.Keys, before.Keys, drivers.cache.Keys, workers, k);
    }
    assert workers[..|workers|] == workers;
  }

  /**
   * `ThreadPool(min(4, len(urls)))` followed by `starmap`: the pool threads
   * start their drivers and the records are gathered. Each task first calls
   * `create_driver()` on its pool thread and then loads its page with that
   * driver. The driver calls are done here before the page work; given a
   * driver that has not been quit, the page a task loads depends only on its
   * URL, and `Scraper.ScrapeMain` shows every pool thread holds such a
   * driver.
   */
  method RunPool(drivers: Drivers.DriverCache, task: Task, urls: seq<string>,
                 order: seq<nat>, workers: seq<Drivers.WorkerId>)
    returns (out: Outcome)
    requires drivers.Valid()
    requires |order| == |urls| && |workers| == |urls|
    requires forall k | 0 <= k < |order| :: order[k] < |urls|
    requires forall i | 0 <= i < |urls| :: i in order
    requires forall k | 0 <= k < |workers| :: 1 <= workers[k] <= PoolSize(|urls|)
    modifies drivers
    ensures drivers.Valid()
    ensures out == Starmap(task, urls)
    ensures drivers.quit == old(drivers.quit)
    ensures drivers.created <= old(drivers.created) + PoolSize(|urls|)
    ensures forall k | 0 <= k < |workers| :: workers[k] in drivers.cache
    ensures GrownFrom(old(drivers.cache), drivers.quit, drivers.cache, PoolSize(|urls|))
    ensures forall w | w in old(drivers.cache) :: w in drivers.cache && drivers.cache[w] == old(drivers.cache)[w]
    ensures forall w :: w in drivers.cache <==> w in old(drivers.cache) || w in workers
    ensures forall k | 0 <= k < |workers| && workers[k] !in old(drivers.cache) ::
      workers[k] in drivers.cache && drivers.cache[workers[k]] !in drivers.quit
  {
    StartDrivers(drivers, workers, PoolSize(|urls|));
    assert GrownFrom(old(drivers.cache), drivers.quit, drivers.cache, PoolSize(|urls|));
    GrowthBound(old(drivers.cache.Keys), drivers.cache.Keys, PoolSize(|urls|));
    out := Gather(task, urls, order);
  }
}
