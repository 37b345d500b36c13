/**
 * The browser driver as the core sees it: a persistent browser context that
 * owns a list of open pages. The driver itself is opaque; what is kept is the
 * part of its documented behaviour the core depends on. `context.pages` lists
 * the open pages in creation order, a successful `page.close()` takes the page
 * out of that list, and a page whose close fails stays where it is.
 */
module Driver {
  import opened Wrappers

  /** A page. `closeFails` fixes, per page, whether `close()` raises. */
  class Page {
    var closed: bool
    const closeFails: bool
    /** The context the page was opened in. */
    const context: BrowserContext
    /** The names of callable attributes the page object exposes. */
    const methods: set<string>
    /** Wrapper layers installed over page methods, oldest first. */
    var wrapped: seq<string>

    constructor (closeFails: bool, methods: set<string>, context: BrowserContext)
      ensures !closed && this.closeFails == closeFails && this.methods == methods && wrapped == []
      ensures this.context == context
    {
      closed := false;
      this.closeFails := closeFails;
      this.context := context;
      this.methods := methods;
      wrapped := [];
    }

    /** `page.is_closed()`: the page was closed, or its context was. */
    function IsClosed(): bool
      reads this`closed, context`closed
    {
      closed || context.closed
    }

    /** `setattr(page, name, enhanced)`: one more wrapper over method `name`. */
    method Wrap(name: string)
      modifies this`wrapped
      ensures wrapped == old(wrapped) + [name]
    {
      wrapped := wrapped + [name];
    }
  }

  /** The position of `p` in `pages`, when it is there. */
  function IndexOf(pages: seq<Page>, p: Page): (k: int)
    ensures -1 <= k < |pages|
    ensures k == -1 <==> p !in pages
    ensures 0 <= k ==> pages[k] == p
  {
    if pages == [] then -1
    else if pages[0] == p then 0
    else
      assert p in pages <==> p in pages[1..] by {
        assert pages == [pages[0]] + pages[1..];
      }
      var k := IndexOf(pages[1..], p);
      if k == -1 then -1 else k + 1
  }

  /** `pages` with the entry at position `k` taken out. */
  function RemoveAt(pages: seq<Page>, k: nat): (r: seq<Page>)
    requires k < |pages|
    ensures |r| == |pages| - 1
    ensures forall i :: 0 <= i < k ==> r[i] == pages[i]
    ensures forall i :: k <= i < |r| ==> r[i] == pages[i + 1]
  {
    pages[..k] + pages[k + 1..]
  }

  predicate Distinct(pages: seq<Page>) {
    forall i, j :: 0 <= i < j < |pages| ==> pages[i] != pages[j]
  }

  /** In a list without repetitions, the position of the entry at `k` is `k`. */
  lemma IndexOfDistinct(pages: seq<Page>, k: nat)
    requires Distinct(pages) && k < |pages|
    ensures IndexOf(pages, pages[k]) == k
  {
  }

  /** A persistent context from `launch_persistent_context`. */
  class BrowserContext {
    const userDataDir: string
    const headless: bool
    const args: seq<string>
    var pages: seq<Page>
    var closed: bool

    /**
     * The open pages are listed once each, none of them is closed, and each
     * belongs to this context; a listed page therefore reports closed exactly
     * when the context is closed.
     */
    ghost predicate Valid()
      reads this, pages`closed
    {
      Distinct(pages) && forall i :: 0 <= i < |pages| ==> !pages[i].closed && pages[i].context == this
    }

    constructor (userDataDir: string, headless: bool, args: seq<string>)
      ensures Valid() && !closed && pages == []
      ensures this.userDataDir == userDataDir && this.headless == headless && this.args == args
    {
      this.userDataDir := userDataDir;
      this.headless := headless;
      this.args := args;
      pages := [];
      closed := false;
    }

    /**
     * `context.new_page()`: on an open context, a fresh open page, listed
     * last; on a closed context it raises (`None`) and nothing changes.
     */
    method NewPage(closeFails: bool, methods: set<string>) returns (r: Option<Page>)
      modifies this`pages
      ensures old(Valid()) ==> Valid()
      ensures closed == old(closed) && (r.None? <==> closed)
      ensures r.None? ==> pages == old(pages)
      ensures r.Some? ==> fresh(r.value) && !r.value.closed && r.value.methods == methods && r.value.wrapped == []
      ensures r.Some? ==> r.value.closeFails == closeFails && r.value.context == this
      ensures r.Some? ==> pages == old(pages) + [r.value]
    {
      if closed {
        return None;
      }
      var p := new Page(closeFails, methods, this);
      pages := pages + [p];
      r := Some(p);
    }

    /**
     * `page.close()` on a page of this context: it raises when the page's close
     * fails; otherwise the page is closed and leaves the list.
     */
    method ClosePage(p: Page) returns (ok: bool)
      requires Valid() && p in pages
      modifies this`pages, p`closed
      ensures Valid() && ok == !p.closeFails && closed == old(closed) && p.wrapped == old(p.wrapped)
      ensures ok ==> p.closed && pages == RemoveAt(old(pages), IndexOf(old(pages), p))
      ensures !ok ==> p.closed == old(p.closed) && pages == old(pages)
    {
      if p.closeFails {
        return false;
      }
      var k := IndexOf(pages, p);
      ghost var before := pages;
      pages := RemoveAt(pages, k);
      p.closed := true;
      assert forall i :: 0 <= i < |pages| ==> pages[i] in before && pages[i] != p && pages[i].context == this;
      ok := true;
    }

    /**
     * `browser.close()`: the context closes and lists no pages. Its pages
     * then report closed through `Page.IsClosed`.
     */
    method Close()
      modifies this
      ensures Valid() && closed && pages == []
    {
      closed := true;
      pages := [];
    }
  }
}
