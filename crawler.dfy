/**
 * `indiegogo_crawler`: collect project links from the infinitely scrolling
 * listing until at least NUM_OF_PROJECTS have been gathered, then write them
 * to the URL file.
 *
 * The listing is given as the sequence of snapshots the loop would read:
 * `visible[k]` is the list of project-card hrefs rendered when the `k`-th
 * pass runs `find_elements`, in page order. The source loop has no exit for
 * an exhausted listing; the model stops when the snapshots run out, which is
 * where the source would keep scrolling forever.
 */
module Crawler {
  import opened Lines
  import Drivers

  const NUM_OF_PROJECTS := 300

  /** The links of the given passes, one after the other, duplicates kept. */
  function Flatten(passes: seq<seq<string>>): seq<string> {
    if passes == [] then [] else Flatten(passes[..|passes| - 1]) + passes[|passes| - 1]
  }

  /**
   * The links gathered by an earlier pass stay where they were: the list
   * after `p` passes is a prefix of the list after `q >= p` passes.
   */
  lemma {:induction false} FlattenPrefix(visible: seq<seq<string>>, p: nat, q: nat)
    requires p <= q <= |visible|
    ensures |Flatten(visible[..p])| <= |Flatten(visible[..q])|
    ensures Flatten(visible[..q])[..|Flatten(visible[..p])|] == Flatten(visible[..p])
    decreases q - p
  {
    if p < q {
      FlattenPrefix(visible, p, q - 1);
      assert visible[..q][..q - 1] == visible[..q - 1];
      var a, b := Flatten(visible[..p]), Flatten(visible[..q - 1]);
      assert Flatten(visible[..q]) == b + visible[q - 1];
      assert (b + visible[q - 1])[..|a|] == b[..|a|];
    }
  }

  /** When every pass sees at least one link, `k` passes gather at least `k` links. */
  lemma {:induction false} FlattenGrows(visible: seq<seq<string>>)
    requires forall k | 0 <= k < |visible| :: visible[k] != []
    ensures |Flatten(visible)| >= |visible|
  {
    if visible != [] {
      var init := visible[..|visible| - 1];
      assert forall k | 0 <= k < |init| :: init[k] == visible[k];
      FlattenGrows(init);
    }
  }

  /**
   * The number of passes the collection loop runs when it has already run
   * `p`: it stops at the first pass count whose links reach the target, or
   * when the snapshots run out.
   */
  function PassesFrom(visible: seq<seq<string>>, p: nat): (r: nat)
    requires p <= |visible|
    ensures p <= r <= |visible|
    ensures |Flatten(visible[..r])| >= NUM_OF_PROJECTS || r == |visible|
    ensures forall q | p <= q < r :: |Flatten(visible[..q])| < NUM_OF_PROJECTS
    decreases |visible| - p
  {
    if p == |visible| || |Flatten(visible[..p])| >= NUM_OF_PROJECTS then p
    else PassesFrom(visible, p + 1)
  }

  /** The number of passes of the whole crawl. */
  function CrawlPasses(visible: seq<seq<string>>): nat {
    PassesFrom(visible, 0)
  }

  /**
   * The pass count is the only one at which the loop may stop: every
   * earlier count is below the target, and the loop leaves at the target or
   * when the snapshots run out.
   */
  lemma CrawlPassesUnique(visible: seq<seq<string>>, passes: nat)
    requires passes <= |visible|
    requires |Flatten(visible[..passes])| >= NUM_OF_PROJECTS || passes == |visible|
    requires forall p | 0 <= p < passes :: |Flatten(visible[..p])| < NUM_OF_PROJECTS
    ensures passes == CrawlPasses(visible)
  {
  }

  /**
   * The `while len(project_urls) < NUM_OF_PROJECTS` loop. Each pass appends
   * every visible link, in page order, without removing duplicates; the loop
   * leaves as soon as the count reaches the target, so the last pass may
   * overshoot it.
   */
  method CollectUrls(visible: seq<seq<string>>) returns (urls: seq<string>, passes: nat)
    ensures passes == CrawlPasses(visible)
    ensures passes <= |visible|
    ensures urls == Flatten(visible[..passes])
    ensures |urls| >= NUM_OF_PROJECTS || passes == |visible|
    ensures forall p | 0 <= p < passes :: |Flatten(visible[..p])| < NUM_OF_PROJECTS
    ensures (forall k | 0 <= k < |visible| :: visible[k] != []) && |visible| >= NUM_OF_PROJECTS
      ==> |urls| >= NUM_OF_PROJECTS
  {
    urls, passes := [], 0;
    while |urls| < NUM_OF_PROJECTS && passes < |visible|
      invariant passes <= |visible|
      invariant urls == Flatten(visible[..passes])
      invariant forall p | 0 <= p < passes :: |Flatten(visible[..p])| < NUM_OF_PROJECTS
    {
      assert visible[..passes + 1][..passes] == visible[..passes];
      urls := urls + visible[passes];
      passes := passes + 1;
    }
    CrawlPassesUnique(visible, passes);
    if (forall k | 0 <= k < |visible| :: visible[k] != []) && |visible| >= NUM_OF_PROJECTS {
      if passes == |visible| {
        assert visible[..passes] == visible;
        FlattenGrows(visible);
      }
    }
  }

  /**
   * When the scroll has not rendered new cards before the next pass, the same
   * cards are gathered again: two passes over the same 150 cards reach the
   * target of 300 with only 150 distinct projects.
   */
  lemma RepeatedPassDuplicates(cards: seq<string>)
    requires |cards| == 150
    ensures Flatten([cards, cards]) == cards + cards
    ensures |Flatten([cards, cards])| == NUM_OF_PROJECTS
    ensures |Flatten([cards, cards][..1])| < NUM_OF_PROJECTS
    ensures forall i | 0 <= i < 150 :: Flatten([cards, cards])[i] == Flatten([cards, cards])[i + 150]
  {
    assert [cards, cards][..1] == [cards];
    assert Flatten([cards]) == Flatten([]) + cards;
  }

  predicate Distinct(s: seq<string>) {
    forall i, j | 0 <= i < j < |s| :: s[i] != s[j]
  }

  /** Appends each link of `links` that is not yet in `acc`; the first occurrence wins. */
  function AppendNew(acc: seq<string>, links: seq<string>): (r: seq<string>)
    requires Distinct(acc)
    ensures Distinct(r)
    ensures |acc| <= |r| && r[..|acc|] == acc
    ensures forall u :: u in r <==> u in acc || u in links
    decreases |links|
  {
    if links == [] then acc
    else if links[0] in acc then AppendNew(acc, links[1..])
    else
      var r := AppendNew(acc + [links[0]], links[1..]);
      assert (acc + [links[0]])[..|acc|] == acc;
      assert r[..|acc|] == r[..|acc| + 1][..|acc|];
      r
  }

  /**
   * The collection loop with duplicates removed: the same exit test, but a
   * link is appended only the first time it is seen, so the list holds
   * distinct URLs, each of them seen in one of the passes run.
   */
  method CollectUniqueUrls(visible: seq<seq<string>>) returns (urls: seq<string>, passes: nat)
    ensures passes <= |visible|
    ensures urls == GatherNew(visible[..passes])
    ensures Distinct(urls)
    ensures forall u :: u in urls <==> exists k | 0 <= k < passes :: u in visible[k]
    ensures |urls| >= NUM_OF_PROJECTS || passes == |visible|
    ensures forall p | 0 <= p < passes :: |GatherNew(visible[..p])| < NUM_OF_PROJECTS
  {
    urls, passes := [], 0;
    while |urls| < NUM_OF_PROJECTS && passes < |visible|
      invariant passes <= |visible|
      invariant urls == GatherNew(visible[..passes])
      invariant forall p | 0 <= p < passes :: |GatherNew(visible[..p])| < NUM_OF_PROJECTS
    {
      assert visible[..passes + 1][..passes] == visible[..passes];
      urls := AppendNew(urls, visible[passes]);
      passes := passes + 1;
    }
    GatherNewMembers(visible[..passes]);
  }

  /** The distinct links of the given passes, each at its first sighting. */
  function GatherNew(passes: seq<seq<string>>): (r: seq<string>)
    ensures Distinct(r)
  {
    if passes == [] then [] else AppendNew(GatherNew(passes[..|passes| - 1]), passes[|passes| - 1])
  }

  /** A link is gathered exactly when some pass saw it. */
  lemma {:induction false} GatherNewMembers(passes: seq<seq<string>>)
    ensures forall u :: u in GatherNew(passes) <==> exists k | 0 <= k < |passes| :: u in passes[k]
  {
    if passes != [] {
      var init := passes[..|passes| - 1];
      GatherNewMembers(init);
      assert GatherNew(passes) == AppendNew(GatherNew(init), passes[|passes| - 1]);
      forall u | u in GatherNew(passes) ensures exists k | 0 <= k < |passes| :: u in passes[k] {
        if u !in passes[|passes| - 1] {
          assert u in GatherNew(init);
          var k :| 0 <= k < |init| && u in init[k];
          assert init[k] == passes[k];
        }
      }
      forall u, k | 0 <= k < |passes| && u in passes[k] ensures u in GatherNew(passes) {
        if k < |init| {
          assert init[k] == passes[k];
        }
      }
    }
  }

  /**
   * The whole crawl: the calling thread's driver loads the listing, the links
   * are collected, that driver is quit (its cache slot is kept), and the
   * URL file is written.
   */
  method IndiegogoCrawler(drivers: Drivers.DriverCache, thread: Drivers.WorkerId, visible: seq<seq<string>>)
    returns (urls: seq<string>, file: string)
    requires drivers.Valid()
    modifies drivers
    ensures drivers.Valid()
    ensures urls == Flatten(visible[..CrawlPasses(visible)])
    ensures file == UrlFile(urls)
    ensures thread in drivers.cache && drivers.cache[thread] in drivers.quit
    ensures drivers.cache.Keys == old(drivers.cache.Keys) + {thread}
    ensures drivers.quit == old(drivers.quit) + {drivers.cache[thread]}
    ensures thread in old(drivers.cache) ==>
      drivers.cache == old(drivers.cache) && drivers.created == old(drivers.created)
    ensures thread !in old(drivers.cache) ==>
      drivers.cache == old(drivers.cache)[thread := old(drivers.created) + 1]
      && drivers.created == old(drivers.created) + 1
  {
    var driver := drivers.CreateDriver(thread);
    var passes;
    urls, passes := CollectUrls(visible);
    drivers.Quit(driver);
    file := WriteUrlFile(urls);
  }
}
