/**
 * `PageLimitPlugin`: keeps the number of pages of its browser context under
 * a cap. Its `before_exec` check closes the oldest page once the cap is
 * reached (falling back to the second oldest when that close fails), its
 * `on_success` and `on_error` operations re-count the pages, and
 * `force_cleanup` closes the pages beyond the cap.
 *
 * A listed page of a valid context is never closed itself, so it reports
 * closed (`is_closed()`) exactly when its context does; the specification
 * functions below take that flag as `ctxClosed`.
 */
module PageLimit {
  import opened Wrappers
  import opened Driver
  import opened Plugin

  const DEFAULT_MAX_PAGES: int := 5

  /** The three operations the constructor registers, under the names of the bound methods. */
  const CHECK_PAGE_LIMIT: Operation := Callable("_check_page_limit", 0, Some(0))
  const UPDATE_PAGE_COUNT: Operation := Callable("_update_page_count", 0, Some(0))
  /** `_handle_page_error(self, error)` takes exactly one argument. */
  const HANDLE_PAGE_ERROR: Operation := Callable("_handle_page_error", 1, Some(1))

  /** The constructor's `add_operation` calls. */
  const PAGE_LIMIT_REGISTRATIONS: seq<Registration> := [
    Registration(BeforeExec, CHECK_PAGE_LIMIT, "检查页面数量限制"),
    Registration(OnSuccess, UPDATE_PAGE_COUNT, "更新页面计数"),
    Registration(OnError, HANDLE_PAGE_ERROR, "处理页面错误")
  ]

  /**
   * Each hook of a plugin built from `PAGE_LIMIT_REGISTRATIONS` gets the one
   * operation registered on it, if any. The `on_error` handler needs an
   * argument, so a walk of that chain without arguments always raises.
   */
  lemma PageLimitRegistered(fails: string -> bool)
    ensures RegisteredOps(PAGE_LIMIT_REGISTRATIONS, 3, BeforeExec) == [CHECK_PAGE_LIMIT]
    ensures RegisteredOps(PAGE_LIMIT_REGISTRATIONS, 3, OnSuccess) == [UPDATE_PAGE_COUNT]
    ensures RegisteredOps(PAGE_LIMIT_REGISTRATIONS, 3, OnError) == [HANDLE_PAGE_ERROR]
    ensures RegisteredOps(PAGE_LIMIT_REGISTRATIONS, 3, OnExec) == []
    ensures RegisteredOps(PAGE_LIMIT_REGISTRATIONS, 3, AfterExec) == []
    ensures RunChain([HANDLE_PAGE_ERROR], 0, fails) == ChainRun([HANDLE_PAGE_ERROR], true)
  {
    forall h {
      RegisteredThree(PAGE_LIMIT_REGISTRATIONS, h);
    }
  }

  /** What `_close_oldest_page` tried: the positions it called `close()` on, and the one that closed. */
  datatype CloseRun = CloseRun(attempted: seq<nat>, closed: Option<nat>)

  /**
   * `_close_oldest_page` on a context listing `pages`: nothing happens when
   * there are no pages or the oldest reports closed; otherwise the oldest is
   * closed, and only when that close raises is the second oldest tried, if
   * there is one that reports open.
   */
  function OldestClose(pages: seq<Page>, ctxClosed: bool): (r: CloseRun)
    ensures r.closed.Some? ==> r.closed.value < |pages|
  {
    if |pages| == 0 || ctxClosed then CloseRun([], None)
    else if !pages[0].closeFails then CloseRun([0], Some(0))
    else if |pages| > 1 then CloseRun([0, 1], if pages[1].closeFails then None else Some(1))
    else CloseRun([0], None)
  }

  /** The pages left listed after a close of position `closed`, if any. */
  function Remaining(pages: seq<Page>, closed: Option<nat>): (r: seq<Page>)
    requires closed.Some? ==> closed.value < |pages|
    ensures closed.None? ==> r == pages
    ensures closed.Some? ==> |r| == |pages| - 1 && forall p :: p in r ==> p in pages
  {
    match closed
    case None => pages
    case Some(k) => RemoveAt(pages, k)
  }

  /**
   * At most the two oldest pages are tried, the oldest first; the second is
   * tried only when there are two pages and closing the oldest raised;
   * whatever the outcome, at most one page closes, and it is the last one
   * tried, whose close did not raise. Nothing is tried when the oldest
   * reports closed.
   */
  lemma OldestCloseAttempts(pages: seq<Page>, ctxClosed: bool)
    ensures var r := OldestClose(pages, ctxClosed);
            && (r.attempted == [] || r.attempted == [0] || r.attempted == [0, 1])
            && (r.attempted == [] <==> |pages| == 0 || ctxClosed)
            && (r.attempted == [0, 1] <==> |pages| > 1 && !ctxClosed && pages[0].closeFails)
            && (r.closed.Some? <==> r.attempted != [] && !pages[r.attempted[|r.attempted| - 1]].closeFails)
            && (r.closed.Some? ==> r.closed.value == r.attempted[|r.attempted| - 1])
            && |Remaining(pages, r.closed)| >= |pages| - 1
  {
  }

  /** What `force_cleanup`'s loop did: the pages left, how many it closed, and whether it indexed past the end. */
  datatype ForceRun = ForceRun(remaining: seq<Page>, closedCount: nat, indexError: bool)

  /** The number of loop turns `force_cleanup` makes on `count` pages with cap `max`. */
  function CleanupTurns(count: nat, max: int): (n: nat)
    ensures count > max ==> n <= count && n <= count - max
    ensures count > max && max >= 0 ==> n == count - max
    ensures count <= max ==> n == 0
  {
    if count <= max then 0 else Min(count - max, count)
  }

  function Min(a: int, b: int): int {
    if a <= b then a else b
  }

  /**
   * `force_cleanup`'s loop from turn `i` of `n`, as written: turn `i` looks
   * up position `i` of the current list, which shrinks each time a page
   * closes, so the positions it visits skip over the survivors; a position
   * past the end raises `IndexError`. A page that reports closed is passed
   * over and a page whose close raises stays listed.
   */
  function ForceSpec(pages: seq<Page>, ctxClosed: bool, i: nat, n: nat): ForceRun
    decreases n - i
  {
    if i >= n then ForceRun(pages, 0, false)
    else if i >= |pages| then ForceRun(pages, 0, true)
    else if ctxClosed || pages[i].closeFails then ForceSpec(pages, ctxClosed, i + 1, n)
    else
      var r := ForceSpec(RemoveAt(pages, i), ctxClosed, i + 1, n);
      ForceRun(r.remaining, r.closedCount + 1, r.indexError)
  }

  /** A loop outcome after `k` closes have already been counted. */
  function Plus(k: nat, r: ForceRun): ForceRun {
    ForceRun(r.remaining, k + r.closedCount, r.indexError)
  }

  /** Every close the loop counts takes one page off the list, and it counts at most one per turn. */
  lemma {:induction false} ForceSpecCounts(pages: seq<Page>, ctxClosed: bool, i: nat, n: nat)
    ensures var r := ForceSpec(pages, ctxClosed, i, n);
            && r.closedCount <= (if i <= n then n - i else 0)
            && |r.remaining| == |pages| - r.closedCount
            && forall p :: p in r.remaining ==> p in pages
    decreases n - i
  {
    if i < n && i < |pages| {
      if ctxClosed || pages[i].closeFails {
        ForceSpecCounts(pages, ctxClosed, i + 1, n);
      } else {
        ForceSpecCounts(RemoveAt(pages, i), ctxClosed, i + 1, n);
      }
    }
  }

  /**
   * As written, `force_cleanup` on four open pages with cap 2 closes the
   * first and the third, leaving the second and the fourth, not the two
   * newest.
   */
  lemma ForceSkipsSurvivors(p0: Page, p1: Page, p2: Page, p3: Page)
    requires !p0.closeFails && !p1.closeFails && !p2.closeFails && !p3.closeFails
    ensures CleanupTurns(4, 2) == 2
    ensures ForceSpec([p0, p1, p2, p3], false, 0, 2) == ForceRun([p1, p3], 2, false)
  {
    var pages := [p0, p1, p2, p3];
    assert RemoveAt(pages, 0) == [p1, p2, p3];
    assert RemoveAt([p1, p2, p3], 1) == [p1, p3];
  }

  /**
   * As written, `force_cleanup` on four open pages with cap 1 raises
   * `IndexError` on its third turn, after closing two pages.
   */
  lemma ForceIndexError(p0: Page, p1: Page, p2: Page, p3: Page)
    requires !p0.closeFails && !p1.closeFails && !p2.closeFails && !p3.closeFails
    ensures CleanupTurns(4, 1) == 3
    ensures ForceSpec([p0, p1, p2, p3], false, 0, 3) == ForceRun([p1, p3], 2, true)
  {
    var pages := [p0, p1, p2, p3];
    assert RemoveAt(pages, 0) == [p1, p2, p3];
    assert RemoveAt([p1, p2, p3], 1) == [p1, p3];
  }

  /** The pages among the first `k` of `pages` that stay listed when each of them is closed in turn. */
  function Kept(pages: seq<Page>, ctxClosed: bool, k: nat): (r: seq<Page>)
    requires k <= |pages|
    ensures |r| <= k
  {
    if k == 0 then []
    else
      var r := Kept(pages, ctxClosed, k - 1);
      r + (if ctxClosed || pages[k - 1].closeFails then [pages[k - 1]] else [])
  }

  /** Without close failures, closing the first `k` pages in turn keeps none of them. */
  lemma {:induction false} KeptNone(pages: seq<Page>, ctxClosed: bool, k: nat)
    requires k <= |pages| && !ctxClosed
    requires forall i :: 0 <= i < k ==> !pages[i].closeFails
    ensures Kept(pages, ctxClosed, k) == []
  {
    if k > 0 {
      KeptNone(pages, ctxClosed, k - 1);
    }
  }

  /** Each page of the first `k` that closes is counted once. */
  /** The number of the first `k` pages that close when each of them is closed in turn. */
  function ClosedAmong(pages: seq<Page>, ctxClosed: bool, k: nat): nat
    requires k <= |pages|
  {
    k - |Kept(pages, ctxClosed, k)|
  }

  /**
   * The corrected cleanup on open pages without close failures leaves
   * exactly the `max` newest pages, in order.
   */
  lemma FixedKeepsNewest(pages: seq<Page>, max: int)
    requires |pages| > max >= 0
    requires forall i :: 0 <= i < |pages| ==> !pages[i].closeFails
    ensures var n := CleanupTurns(|pages|, max);
            Kept(pages, false, n) + pages[n..] == pages[|pages| - max..] && |pages[n..]| == max
  {
    KeptNone(pages, false, CleanupTurns(|pages|, max));
  }

  /** The page statistics `get_page_stats` reports about one page. */
  datatype PageInfo = PageInfo(index: nat, isClosed: bool)

  /** `get_page_stats`' counters and per-page entries. */
  datatype PageStats = PageStats(maxPages: int, currentPages: int, availableSlots: int, pagesInfo: seq<PageInfo>)

  /** `max(0, max_pages - current_pages)`: the pages that can still be opened before the cap. */
  function AvailableSlots(maxPages: int, currentPages: int): (r: int)
    ensures r >= 0
    ensures r == 0 <==> currentPages >= maxPages
    ensures currentPages <= maxPages ==> r + currentPages == maxPages
  {
    if maxPages - currentPages > 0 then maxPages - currentPages else 0
  }

  class PageLimitPlugin {
    /** The plugin's own chains (`super().__init__`). */
    const base: BasePlugin
    /** The shared browser context. */
    const session: BrowserContext
    const maxPages: int
    var currentPages: int

    /**
     * `PageLimitPlugin(max_pages, session=...)`: the count starts at zero and
     * the three operations are registered: the check on `before_exec`, the
     * re-count on `on_success`, the error handler on `on_error`.
     */
    constructor (maxPages: int, session: BrowserContext)
      ensures this.maxPages == maxPages && this.session == session && currentPages == 0
      ensures fresh(base) && fresh(base.repr) && base.Valid()
      ensures forall h :: base.Ops(h) == RegisteredOps(PAGE_LIMIT_REGISTRATIONS, 3, h)
    {
      var b := NewPlugin(PAGE_LIMIT_REGISTRATIONS);
      base := b;
      this.maxPages := maxPages;
      this.session := session;
      currentPages := 0;
    }

    /**
     * `_check_page_limit`: the count becomes the number of listed pages, and
     * only when it has reached the cap is the oldest page closed.
     */
    method CheckPageLimit() returns (attempted: seq<nat>)
      requires session.Valid()
      modifies this`currentPages, session`pages, session.pages`closed
      ensures session.Valid() && session.closed == old(session.closed)
      ensures currentPages == |old(session.pages)|
      ensures currentPages < maxPages ==> attempted == [] && session.pages == old(session.pages)
      ensures currentPages >= maxPages ==>
                var r := OldestClose(old(session.pages), old(session.closed));
                attempted == r.attempted && session.pages == Remaining(old(session.pages), r.closed)
      ensures forall p :: p in old(session.pages) && p !in session.pages ==> p.closed
      ensures forall p :: p in old(session.pages) && p in session.pages ==> p.closed == old(p.closed)
      ensures forall p :: p in old(session.pages) ==> p.wrapped == old(p.wrapped)
    {
      currentPages := |session.pages|;
      attempted := [];
      if currentPages >= maxPages {
        attempted := CloseOldestPage();
      }
    }

    /**
     * `_close_oldest_page`: the positions whose `close()` was called and the
     * new list of pages are those `OldestClose` gives. A failed close is
     * logged, never raised.
     */
    method CloseOldestPage() returns (attempted: seq<nat>)
      requires session.Valid()
      modifies session`pages, session.pages`closed
      ensures session.Valid() && session.closed == old(session.closed)
      ensures var r := OldestClose(old(session.pages), old(session.closed));
              attempted == r.attempted && session.pages == Remaining(old(session.pages), r.closed)
      ensures forall p :: p in old(session.pages) && p !in session.pages ==> p.closed
      ensures forall p :: p in old(session.pages) && p in session.pages ==> p.closed == old(p.closed)
      ensures forall p :: p in old(session.pages) ==> p.wrapped == old(p.wrapped)
    {
      attempted := [];
      if |session.pages| > 0 {
        var oldest := session.pages[0];
        if !oldest.IsClosed() {
          attempted := [0];
          IndexOfDistinct(session.pages, 0);
          var ok := session.ClosePage(oldest);
          if !ok && |session.pages| > 1 {
            var next := session.pages[1];
            if !next.IsClosed() {
              attempted := [0, 1];
              IndexOfDistinct(session.pages, 1);
              ok := session.ClosePage(next);
            }
          }
        }
      }
    }

    /** `_update_page_count`: the count becomes the number of listed pages. */
    method UpdatePageCount()
      modifies this`currentPages
      ensures currentPages == |session.pages|
    {
      var newCount := |session.pages|;
      if newCount != currentPages {
        currentPages := newCount;
      }
    }

    /** `_handle_page_error(error)`: the error is only logged; the count is refreshed. */
    method HandlePageError(error: string)
      modifies this`currentPages
      ensures currentPages == |session.pages|
    {
      UpdatePageCount();
    }

    /**
     * `get_page_stats`: the cap, the count, the free slots, and for every
     * listed page its position and whether it reports closed. The page's
     * URL and title are not part of this model.
     */
    method GetPageStats() returns (s: PageStats)
      ensures s.maxPages == maxPages && s.currentPages == currentPages
      ensures s.availableSlots == AvailableSlots(maxPages, currentPages)
      ensures |s.pagesInfo| == |session.pages|
      ensures forall i :: 0 <= i < |s.pagesInfo| ==> s.pagesInfo[i] == PageInfo(i, session.pages[i].IsClosed())
    {
      var info: seq<PageInfo> := [];
      var i := 0;
      while i < |session.pages|
        invariant 0 <= i <= |session.pages| && |info| == i
        invariant forall j :: 0 <= j < i ==> info[j] == PageInfo(j, session.pages[j].IsClosed())
      {
        info := info + [PageInfo(i, session.pages[i].IsClosed())];
        i := i + 1;
      }
      s := PageStats(maxPages, currentPages, AvailableSlots(maxPages, currentPages), info);
    }

    /**
     * `force_cleanup`, as written: with more pages than the cap it runs the
     * loop `ForceSpec` describes, then re-counts; an `IndexError` ends it
     * before the re-count. The result carries the number of pages closed.
     */
    method ForceCleanup() returns (r: Result<nat, string>)
      requires session.Valid()
      modifies this`currentPages, session`pages, session.pages`closed
      ensures session.Valid() && session.closed == old(session.closed)
      ensures |old(session.pages)| <= maxPages ==>
                r == Success(0) && session.pages == old(session.pages) && currentPages == old(currentPages)
      ensures |old(session.pages)| > maxPages ==>
                var f := ForceSpec(old(session.pages), old(session.closed), 0, CleanupTurns(|old(session.pages)|, maxPages));
                && session.pages == f.remaining
                && (f.indexError ==> r == Failure("IndexError") && currentPages == old(currentPages))
                && (!f.indexError ==> r == Success(f.closedCount) && currentPages == |session.pages|)
      ensures forall p :: p in old(session.pages) && p !in session.pages ==> p.closed
      ensures forall p :: p in old(session.pages) && p in session.pages ==> p.closed == old(p.closed)
      ensures forall p :: p in old(session.pages) ==> p.wrapped == old(p.wrapped)
    {
      var count := |session.pages|;
      if count <= maxPages {
        return Success(0);
      }
      r := CloseByPosition(session, CleanupTurns(count, maxPages));
      if r.Success? {
        UpdatePageCount();
      }
    }

    /**
     * `force_cleanup` as evidently intended: the pages beyond the cap are
     * taken from a snapshot of the oldest ones, so each of them is tried
     * once, and only those whose close raises stay listed before the rest.
     */
    method ForceCleanupFixed() returns (closedCount: nat)
      requires session.Valid()
      modifies this`currentPages, session`pages, session.pages`closed
      ensures session.Valid() && session.closed == old(session.closed)
      ensures |old(session.pages)| <= maxPages ==>
                closedCount == 0 && session.pages == old(session.pages) && currentPages == old(currentPages)
      ensures |old(session.pages)| > maxPages ==>
                var n := CleanupTurns(|old(session.pages)|, maxPages);
                && session.pages == Kept(old(session.pages), old(session.closed), n) + old(session.pages)[n..]
                && closedCount == ClosedAmong(old(session.pages), old(session.closed), n)
                && currentPages == |session.pages|
      ensures forall p :: p in old(session.pages) && p !in session.pages ==> p.closed
      ensures forall p :: p in old(session.pages) && p in session.pages ==> p.closed == old(p.closed)
      ensures forall p :: p in old(session.pages) ==> p.wrapped == old(p.wrapped)
    {
      var count := |session.pages|;
      if count <= maxPages {
        return 0;
      }
      closedCount := CloseEach(session, CleanupTurns(count, maxPages));
      UpdatePageCount();
    }
  }

  /** One turn of `force_cleanup`'s loop, as written. */
  lemma ForceAt(pages: seq<Page>, ctxClosed: bool, i: nat, n: nat)
    requires i < n && i < |pages|
    ensures ForceSpec(pages, ctxClosed, i, n) ==
              if ctxClosed || pages[i].closeFails then ForceSpec(pages, ctxClosed, i + 1, n)
              else Plus(1, ForceSpec(RemoveAt(pages, i), ctxClosed, i + 1, n))
  {
  }

  /**
   * The loop of `force_cleanup`, as written: turn `i` of `n` closes the page
   * now at position `i`, unless it reports closed; a close that raises is
   * logged and counted out. The outcome is `ForceSpec`'s.
   */
  method CloseByPosition(session: BrowserContext, n: nat) returns (r: Result<nat, string>)
    requires session.Valid()
    modifies session`pages, session.pages`closed
    ensures session.Valid() && session.closed == old(session.closed)
    ensures var f := ForceSpec(old(session.pages), old(session.closed), 0, n);
            && session.pages == f.remaining
            && r == if f.indexError then Failure("IndexError") else Success(f.closedCount)
    ensures forall p :: p in old(session.pages) && p !in session.pages ==> p.closed
    ensures forall p :: p in old(session.pages) && p in session.pages ==> p.closed == old(p.closed)
    ensures forall p :: p in old(session.pages) ==> p.wrapped == old(p.wrapped)
  {
    var closedCount := 0;
    var i := 0;
    ghost var c := session.closed;
    ghost var all := session.pages;
    while i < n
      invariant 0 <= i <= n && session.Valid() && session.closed == c
      invariant ForceProgress(session.pages, closedCount, all, c, i, n)
      invariant forall p :: p in all && p !in session.pages ==> p.closed
      decreases n - i
    {
      if i >= |session.pages| {
        return Failure("IndexError");
      }
      assert session.pages[i] in all;
      closedCount := PositionTurn(session, closedCount, all, c, i, n);
      i := i + 1;
    }
    r := Success(closedCount);
  }

  /**
   * The as-written loop after `i` of `n` turns: the pages listed are among
   * the original ones, and what is left of the loop, added to the
   * `closedCount` closes so far, makes up the whole loop.
   */
  ghost predicate ForceProgress(pages: seq<Page>, closedCount: nat, all: seq<Page>, c: bool, i: nat, n: nat) {
    && (forall p :: p in pages ==> p in all)
    && ForceSpec(all, c, 0, n) == Plus(closedCount, ForceSpec(pages, c, i, n))
  }

  /** Turn `i` of the as-written loop, on a list long enough to have a position `i`. */
  method PositionTurn(session: BrowserContext, closedCount: nat, ghost all: seq<Page>, ghost c: bool, i: nat, ghost n: nat)
    returns (count: nat)
    requires session.Valid() && session.closed == c && i < n && i < |session.pages|
    requires ForceProgress(session.pages, closedCount, all, c, i, n)
    modifies session`pages, {session.pages[i]}`closed
    ensures session.Valid() && session.closed == c
    ensures ForceProgress(session.pages, count, all, c, i + 1, n)
    ensures forall p :: p in old(session.pages) && p !in session.pages ==> p.closed
  {
    ForceAt(session.pages, c, i, n);
    count := closedCount;
    var page := session.pages[i];
    if !page.IsClosed() {
      IndexOfDistinct(session.pages, i);
      var ok := session.ClosePage(page);
      if ok {
        count := count + 1;
      }
    }
  }

  /** Taking out the first entry after `a` in `a + b`. */
  lemma RemoveAtJoin(a: seq<Page>, b: seq<Page>)
    requires |b| > 0
    ensures RemoveAt(a + b, |a|) == a + b[1..]
  {
    assert (a + b)[..|a|] == a;
    assert (a + b)[|a| + 1..] == b[1..];
  }

  /** One turn of the corrected loop: the page at `i` is kept when it reports closed or its close raises. */
  lemma KeptStep(all: seq<Page>, c: bool, i: nat)
    requires i < |all|
    ensures all[i..] == [all[i]] + all[i + 1..]
    ensures c || all[i].closeFails ==> Kept(all, c, i + 1) + all[i + 1..] == Kept(all, c, i) + all[i..]
    ensures !(c || all[i].closeFails) ==> Kept(all, c, i + 1) == Kept(all, c, i)
  {
    assert all[i..] == [all[i]] + all[i + 1..];
    var kept := Kept(all, c, i);
    assert (kept + [all[i]]) + all[i + 1..] == kept + ([all[i]] + all[i + 1..]);
  }

  /**
   * The corrected loop after `i` turns: the kept pages come first, then
   * those not yet tried, and `closedCount` pages have closed.
   */
  ghost predicate Progress(pages: seq<Page>, closedCount: nat, all: seq<Page>, c: bool, i: nat) {
    i <= |all| && pages == Kept(all, c, i) + all[i..] && closedCount == ClosedAmong(all, c, i)
  }

  /**
   * The loop of the corrected `force_cleanup`: each of the first `n` pages,
   * taken from a snapshot, is closed in turn unless it reports closed; those
   * whose close raises stay listed, in order, before the untouched rest.
   */
  method CloseEach(session: BrowserContext, n: nat) returns (closedCount: nat)
    requires session.Valid() && n <= |session.pages|
    modifies session`pages, session.pages`closed
    ensures session.Valid() && session.closed == old(session.closed)
    ensures Progress(session.pages, closedCount, old(session.pages), old(session.closed), n)
    ensures forall p :: p in old(session.pages) && p !in session.pages ==> p.closed
    ensures forall p :: p in old(session.pages) && p in session.pages ==> p.closed == old(p.closed)
    ensures forall p :: p in old(session.pages) ==> p.wrapped == old(p.wrapped)
  {
    var targets := session.pages[..n];
    ghost var all := session.pages;
    ghost var c := session.closed;
    closedCount := 0;
    var i := 0;
    while i < n
      invariant 0 <= i <= n && session.Valid() && session.closed == c
      invariant Progress(session.pages, closedCount, all, c, i)
      invariant forall p :: p in all && p !in session.pages ==> p.closed
      decreases n - i
    {
      closedCount := CloseTurn(session, targets[i], closedCount, all, c, i);
      i := i + 1;
    }
  }

  /** Turn `i` of the corrected loop: `page`, the snapshot's entry `i`, is closed unless it reports closed. */
  method CloseTurn(session: BrowserContext, page: Page, closedCount: nat, ghost all: seq<Page>, ghost c: bool, ghost i: nat)
    returns (count: nat)
    requires session.Valid() && session.closed == c && i < |all| && page == all[i]
    requires Progress(session.pages, closedCount, all, c, i)
    modifies session`pages, page`closed
    ensures session.Valid() && session.closed == c
    ensures Progress(session.pages, count, all, c, i + 1)
    ensures forall p :: p in old(session.pages) && p !in session.pages ==> p.closed
  {
    ghost var kept := Kept(all, c, i);
    KeptStep(all, c, i);
    assert session.pages[|kept|] == page;
    count := closedCount;
    if !page.IsClosed() {
      IndexOfDistinct(session.pages, |kept|);
      RemoveAtJoin(kept, all[i..]);
      assert all[i..][1..] == all[i + 1..];
      var ok := session.ClosePage(page);
      if ok {
        count := count + 1;
      }
    }
  }
}
