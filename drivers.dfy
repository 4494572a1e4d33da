/**
 * The per-thread driver cache behind `Driver.create_driver`: a
 * `threading.local` slot holding at most one driver per thread. The thread
 * local becomes an explicit map from worker id to driver handle; a handle
 * is the number of the browser construction that made it.
 */
module Drivers {

  type WorkerId = nat

  /** The `n`-th `Driver()` constructed has handle `n` (counting from 1). */
  type Handle = nat

  /** Distinct threads hold distinct drivers. */
  ghost predicate Injective(m: map<WorkerId, Handle>) {
    forall w, v | w in m && v in m && w != v :: m[w] != m[v]
  }

  /**
   * Caching a driver newer than every cached one on a thread without one
   * keeps the drivers distinct and adds one slot.
   */
  lemma CacheFresh(m: map<WorkerId, Handle>, next: map<WorkerId, Handle>, w: WorkerId, h: Handle)
    requires Injective(m) && w !in m
    requires 1 <= h && forall v | v in m :: 1 <= m[v] < h
    requires next == m[w := h]
    ensures Injective(next) && |next| == |m| + 1
    ensures forall v | v in next :: 1 <= next[v] <= h
  {
    assert next.Keys == m.Keys + {w};
    forall a, b | a in next && b in next && a != b ensures next[a] != next[b] {
      if a != w && b != w {
        assert next[a] == m[a] && next[b] == m[b];
      }
    }
  }

  class DriverCache {
    /** `threadLocal.the_driver` of each thread that has one. */
    var cache: map<WorkerId, Handle>
    /** How many browsers `Driver()` has started. */
    var created: nat
    /** The drivers on which `quit()` has been called. */
    var quit: set<Handle>

    /**
     * Exactly one browser was started per thread that ever asked for one,
     * distinct threads hold distinct drivers, and only started drivers can
     * have been quit.
     */
    ghost predicate Valid()
      reads this
    {
      && created == |cache|
      && (forall w | w in cache :: 1 <= cache[w] <= created)
      && Injective(cache)
      && (forall h | h in quit :: 1 <= h <= created)
    }

    constructor ()
      ensures Valid()
      ensures cache == map[] && created == 0 && quit == {}
    {
      cache := map[];
      created := 0;
      quit := {};
    }

    /**
     * `Driver.create_driver()` called from thread `w`: the cached driver if
     * the thread has one (even one that has been quit, since the slot is
     * never cleared), otherwise a newly started one that is cached.
     */
    method CreateDriver(w: WorkerId) returns (h: Handle)
      requires Valid()
      modifies this
      ensures Valid()
      ensures cache.Keys == old(cache.Keys) + {w}
      ensures w in old(cache) ==> h == old(cache[w]) && cache == old(cache) && created == old(created)
      ensures w !in old(cache) ==> h == old(created) + 1 && cache == old(cache)[w := h] && created == old(created) + 1
      ensures w !in old(cache) ==> h !in quit
      ensures quit == old(quit)
      ensures cache[w] == h
    {
      if w in cache {
        h := cache[w];
      } else {
        created := created + 1;
        h := created;
        CacheFresh(cache, cache[w := h], w, h);
        cache := cache[w := h];
        assert cache.Keys == old(cache.Keys) + {w};
      }
    }

    /** `driver.quit()`: the browser stops, the thread's cache slot stays. */
    method Quit(h: Handle)
      requires Valid()
      requires 1 <= h <= created
      modifies this
      ensures Valid()
      ensures quit == old(quit) + {h}
      ensures cache == old(cache) && created == old(created)
    {
      quit := quit + {h};
    }
  }

  /**
   * The crawl's `driver.quit()` leaves the quit driver cached: a later
   * `create_driver()` on the same thread hands back the quit driver instead
   * of starting a new one.
   */
  method QuitDriverStaysCached(w: WorkerId) returns (first: Handle, second: Handle, stale: bool)
    ensures first == second
    ensures stale
  {
    var pool := new DriverCache();
    first := pool.CreateDriver(w);
    pool.Quit(first);
    second := pool.CreateDriver(w);
    stale := second in pool.quit;
  }
}
