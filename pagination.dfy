/** `app/util/pagination.py`: splitting a list of entries into pages, and the page state
    of the navigation view.  Sending and editing messages is not modelled; `Start` says
    whether the navigation view goes along with the first page. */
module Pagination {

  import opened Results
  import opened Text

  // ---- Python list indexing and slicing ----

  /** A slice bound as Python normalises it: negative counts from the end, and the
      result is clamped to `0..n`. */
  function SliceBound(i: int, n: nat): (r: nat)
    ensures r <= n
    ensures 0 <= i <= n ==> r == i
  {
    if i < 0 then (if i + n < 0 then 0 else i + n) else if i > n then n else i
  }

  /** `s[i:j]`. */
  function PySlice<T>(s: seq<T>, i: int, j: int): (r: seq<T>)
    ensures 0 <= i <= j <= |s| ==> r == s[i..j]
    ensures |r| <= |s|
  {
    var a := SliceBound(i, |s|);
    var b := SliceBound(j, |s|);
    if a < b then s[a..b] else []
  }

  // ---- Formatter ----

  /** The entries and how many go on one page. */
  datatype Formatter<T> = Formatter(entries: seq<T>, perPage: int)

  datatype PageError = AssertionError | IndexError

  /** `Formatter.__init__`: the assertion turns away a page size below one. */
  function NewFormatter<T>(entries: seq<T>, perPage: int): (r: Result<Formatter<T>, PageError>)
    ensures r.Ok? <==> perPage > 0
    ensures r.Ok? ==> r.value.entries == entries && r.value.perPage == perPage
  {
    if perPage > 0 then Ok(Formatter(entries, perPage)) else Err(AssertionError)
  }

  /** A page: the single entry when a page holds one entry, otherwise a list of them. */
  datatype Page<T> = Entry(entry: T) | Entries(entries: seq<T>)

  /** `get_page`: with one entry per page, the entry at that index (Python indexing,
      so a negative index counts from the end); otherwise the slice of `perPage`
      entries starting at `perPage * page`. */
  function GetPage<T>(f: Formatter<T>, page: int): (r: Result<Page<T>, PageError>)
    requires f.perPage > 0
    ensures f.perPage == 1 ==> (r.Ok? <==> -|f.entries| <= page < |f.entries|)
    ensures f.perPage == 1 && 0 <= page < |f.entries| ==> r == Ok(Entry(f.entries[page]))
    ensures f.perPage > 1 ==> r.Ok? && r.value.Entries? && |r.value.entries| <= f.perPage
  {
    if f.perPage == 1 then
      if 0 <= page < |f.entries| then Ok(Entry(f.entries[page]))
      else if -|f.entries| <= page < 0 then Ok(Entry(f.entries[page + |f.entries|]))
      else Err(IndexError)
    else
      var start := f.perPage * page;
      var slice := PySlice(f.entries, start, start + f.perPage);
      assert |slice| <= f.perPage by {
        SliceAtMost(f.entries, start, f.perPage);
      }
      Ok(Entries(slice))
  }

  lemma SliceAtMost<T>(s: seq<T>, start: int, k: int)
    requires k > 0
    ensures |PySlice(s, start, start + k)| <= k
  {
    var a := SliceBound(start, |s|);
    var b := SliceBound(start + k, |s|);
    if start < 0 && start + k >= 0 {
      assert a == (if start + |s| < 0 then 0 else start + |s|);
    }
  }

  /** An element of a forward slice from a non-negative start is the element that far
      past the start. */
  lemma SliceAt<T>(s: seq<T>, start: int, k: int, j: int)
    requires 0 <= start && 0 <= j < |PySlice(s, start, start + k)|
    ensures start + j < |s| && PySlice(s, start, start + k)[j] == s[start + j]
  {
    var a := SliceBound(start, |s|);
    var b := SliceBound(start + k, |s|);
    assert a < b;
    assert a == start;
  }

  /** `max_pages`: `divmod` into full pages and a remainder, at least one page. */
  function MaxPages<T>(f: Formatter<T>): (r: int)
    requires f.perPage > 0
    ensures r >= 1
    ensures |f.entries| == 0 ==> r == 1
    ensures |f.entries| > 0 ==> (r - 1) * f.perPage < |f.entries| <= r * f.perPage
  {
    var pages := |f.entries| / f.perPage;
    var extra := |f.entries| % f.perPage;
    var total := pages + (if extra != 0 then 1 else 0);
    if total > 1 then total else 1
  }

  /** The entries of pages `0 .. k - 1`, in order. */
  function PagesUpTo<T>(f: Formatter<T>, k: nat): seq<T>
    requires f.perPage > 1
  {
    if k == 0 then [] else PagesUpTo(f, k - 1) + GetPage(f, k - 1).value.entries
  }

  /** `i` capped at `n`. */
  function AtMost(i: nat, n: nat): nat
  {
    if i <= n then i else n
  }

  lemma MulStep(a: int, k: int)
    ensures a * (k - 1) + a == a * k
  {
  }

  lemma MulMonotone(a: nat, x: int, y: int)
    requires x <= y
    ensures a * x <= a * y
  {
    assert a * y - a * x == a * (y - x);
  }

  /** Page `p` of a formatter with several entries to a page, as a plain slice. */
  lemma PageSlice<T>(f: Formatter<T>, p: nat)
    requires f.perPage > 1
    ensures var n := |f.entries|;
      GetPage(f, p).value.entries == f.entries[AtMost(f.perPage * p, n)..AtMost(f.perPage * p + f.perPage, n)]
  {
    MulMonotone(f.perPage, 0, p);
  }

  lemma PrefixStep<T>(s: seq<T>, prev: seq<T>, page: seq<T>, lo: nat, hi: nat)
    requires lo <= hi <= |s| && prev == s[..lo] && page == s[lo..hi]
    ensures prev + page == s[..hi]
  {
    assert s[..hi] == s[..lo] + s[lo..hi];
  }

  /** The first `k` pages hold the first `k * perPage` entries (or all of them). */
  lemma {:induction false} PagesUpToPrefix<T>(f: Formatter<T>, k: nat)
    requires f.perPage > 1
    ensures PagesUpTo(f, k) == f.entries[..AtMost(f.perPage * k, |f.entries|)]
  {
    if k > 0 {
      var n := |f.entries|;
      var a, b := f.perPage * (k - 1), f.perPage * k;
      PagesUpToPrefix(f, k - 1);
      PageSlice(f, k - 1);
      MulStep(f.perPage, k);
      MulMonotone(f.perPage, 0, k - 1);
      assert 0 <= a && a + f.perPage == b;
      PrefixStep(f.entries, PagesUpTo(f, k - 1), GetPage(f, k - 1).value.entries, AtMost(a, n), AtMost(b, n));
    } else {
      assert f.perPage * k == 0;
    }
  }

  /** With several entries to a page, pages `0 .. max_pages - 1` put together are the
      entries, each page in its turn. */
  lemma PagesCoverEntries<T>(f: Formatter<T>)
    requires f.perPage > 1
    ensures PagesUpTo(f, MaxPages(f)) == f.entries
  {
    PagesUpToPrefix(f, MaxPages(f));
    if |f.entries| > 0 {
      assert f.perPage * MaxPages(f) == MaxPages(f) * f.perPage;
    }
  }

  /** Every page before the last is full, and no page is empty before the last one. */
  lemma FullPages<T>(f: Formatter<T>, page: int)
    requires f.perPage > 1 && 0 <= page < MaxPages(f) - 1
    ensures |GetPage(f, page).value.entries| == f.perPage
  {
    var r := MaxPages(f);
    PageSlice(f, page);
    MulStep(f.perPage, page + 1);
    MulMonotone(f.perPage, page + 1, r - 1);
    MulMonotone(f.perPage, 0, page);
    assert f.perPage * (r - 1) == (r - 1) * f.perPage;
  }

  /** With one entry to a page and at least one entry, there is a page per entry. */
  lemma OneEntryPerPage<T>(f: Formatter<T>)
    requires f.perPage == 1 && |f.entries| > 0
    ensures MaxPages(f) == |f.entries|
    ensures forall i :: 0 <= i < MaxPages(f) ==> GetPage(f, i) == Ok(Entry(f.entries[i]))
  {
  }

  // ---- the navigation view ----

  /** `_PaginatorButton`: the 1-based page it leads to, whether it is disabled, and its label. */
  datatype PageButton = PageButton(page: int, disabled: bool, caption: Option<string>)

  /** A button for the 0-based `page`: enabled exactly when it leads to an existing page
      other than the current one, and labelled only when enabled. */
  function MakeButton(current: int, maxPages: int, page: int): (b: PageButton)
    ensures b.page - 1 == page
    ensures !b.disabled <==> 0 <= page < maxPages && page != current
    ensures b.caption.Some? <==> !b.disabled
    ensures b.caption.Some? ==> ParseInt(b.caption.value) == Some(page + 1)
  {
    var target := page + 1;
    var disabled := target == current + 1 || !(1 <= target <= maxPages);
    DecimalStringRoundTrip(target);
    PageButton(target, disabled, if !disabled then Some(DecimalString(target)) else None)
  }

  /** `_update_view`'s four page buttons: first, previous, next and last. */
  function NavButtons(current: int, maxPages: int): (r: seq<PageButton>)
    ensures |r| == 4
  {
    [MakeButton(current, maxPages, 0), MakeButton(current, maxPages, current - 1),
     MakeButton(current, maxPages, current + 1), MakeButton(current, maxPages, maxPages - 1)]
  }

  /** The label of the page-number button. */
  function InputLabel(current: int, maxPages: int): string
  {
    "Page " + DecimalString(current + 1) + "/" + DecimalString(maxPages)
  }

  /** On the first page the first and previous buttons are disabled, on the last page
      the next and last buttons, and with a single page all four. */
  lemma NavButtonsAtEnds(current: int, maxPages: int)
    requires 0 <= current < maxPages
    ensures current == 0 ==> NavButtons(current, maxPages)[0].disabled && NavButtons(current, maxPages)[1].disabled
    ensures current == maxPages - 1 ==> NavButtons(current, maxPages)[2].disabled && NavButtons(current, maxPages)[3].disabled
    ensures maxPages == 1 ==> forall i :: 0 <= i < 4 ==> NavButtons(current, maxPages)[i].disabled
  {
  }

  /** `Paginator`: a formatter and the page being shown. */
  class Paginator<T> {
    const formatter: Formatter<T>
    var currentPage: int

    /** The page shown is one of the formatter's pages. */
    predicate Valid()
      reads this
    {
      formatter.perPage > 0 && 0 <= currentPage < MaxPages(formatter)
    }

    constructor (formatter: Formatter<T>, page: int)
      requires formatter.perPage > 0
      ensures this.formatter == formatter && currentPage == page
    {
      this.formatter := formatter;
      currentPage := page;
    }

    /** A click on an enabled page button shows the page it leads to, so a shown page
        stays one of the formatter's pages. */
    method Press(b: PageButton)
      requires formatter.perPage > 0
      requires b == MakeButton(currentPage, MaxPages(formatter), b.page - 1) && !b.disabled
      modifies this
      ensures currentPage == b.page - 1 && currentPage != old(currentPage)
      ensures Valid()
    {
      currentPage := b.page - 1;
    }

    /** The page-number prompt: a reply that is not a number, or a number outside
        `1 .. max_pages`, is answered with a message and changes nothing; otherwise that
        page is shown. */
    method Jump(content: string) returns (fallback: Option<string>)
      requires formatter.perPage > 0
      modifies this
      ensures var n := ParseInt(Strip(content));
        && (n.None? ==> fallback == Some("Invalid page."))
        && (n.Some? && !(1 <= n.value <= MaxPages(formatter)) ==>
              fallback == Some("Page number must be between 1 and " + Grouped(MaxPages(formatter)) + "."))
        && (fallback.Some? ==> currentPage == old(currentPage))
        && (fallback.None? <==> n.Some? && 1 <= n.value <= MaxPages(formatter))
        && (fallback.None? ==> currentPage == n.value - 1 && Valid())
    {
      var n := ParseInt(Strip(content));
      if n.None? {
        return Some("Invalid page.");
      }
      var maxPages := MaxPages(formatter);
      if !(1 <= n.value <= maxPages) {
        return Some("Page number must be between 1 and " + Grouped(maxPages) + ".");
      }
      currentPage := n.value - 1;
      fallback := None;
    }

    /** `start`: an explicit page replaces the current one; the first page sent is the
        current page, and the navigation view goes with it only when there is more than
        one page. */
    method Start(page: Option<int>) returns (first: Result<Page<T>, PageError>, withView: bool)
      requires formatter.perPage > 0
      modifies this
      ensures currentPage == if page.Some? then page.value else old(currentPage)
      ensures first == GetPage(formatter, currentPage)
      ensures withView <==> MaxPages(formatter) > 1
    {
      if page.Some? {
        currentPage := page.value;
      }
      first := GetPage(formatter, currentPage);
      withView := MaxPages(formatter) > 1;
    }
  }
}
