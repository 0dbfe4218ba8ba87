/** Page arithmetic shared by the two paginated detail lists of the consumption record
    (the record's own list and the list of an expanded category): five details per page,
    a trailing "fully loaded" page when the last real page is exactly full, bounded
    previous/next navigation and a three-wide page-number window. */
module Pagination {
  import JsString

  /** Details per page; every call site, and every stored pagination state, uses 5. */
  const ItemsPerPage: int := 5

  /** Width of the page-number window. */
  const MaxVisiblePages: int := 3

  /** `Math.ceil(n / 5)`: the fewest pages of five that hold `n` details. */
  function TotalPages(n: nat): (r: nat)
    ensures n <= r * ItemsPerPage
    ensures r == 0 || (r - 1) * ItemsPerPage < n
    ensures r == 0 <==> n == 0
  {
    (n + ItemsPerPage - 1) / ItemsPerPage
  }

  /** Number of details on the last real page: the remainder, or a full page when it is 0. */
  function LastPageItemsCount(n: nat): (r: nat)
    ensures 1 <= r <= ItemsPerPage
    ensures n > 0 ==> (TotalPages(n) - 1) * ItemsPerPage + r == n
  {
    var rem := n % ItemsPerPage;
    if rem == 0 then ItemsPerPage else rem
  }

  /** The last real page is exactly full, so the "fully loaded" marker gets a page of its own. */
  predicate NeedsSyntheticPage(n: nat) {
    LastPageItemsCount(n) == ItemsPerPage && TotalPages(n) > 0
  }

  /** A synthetic page is needed exactly when the list is non-empty and a multiple of five. */
  lemma NeedsSyntheticPageIff(n: nat)
    ensures NeedsSyntheticPage(n) <==> n > 0 && n % ItemsPerPage == 0
  {
  }

  /** Real pages plus the synthetic page when there is one. */
  function EffectivePageCount(n: nat): (r: nat)
    ensures r == TotalPages(n) + 1 <==> NeedsSyntheticPage(n)
    ensures r == TotalPages(n) <==> !NeedsSyntheticPage(n)
  {
    if NeedsSyntheticPage(n) then TotalPages(n) + 1 else TotalPages(n)
  }

  /** `details.slice((page - 1) * 5, (page - 1) * 5 + 5)`. */
  function PageItems<T>(details: seq<T>, page: int): (r: seq<T>)
    ensures 1 <= page <= TotalPages(|details|) ==>
              (page - 1) * ItemsPerPage < |details| &&
              r == details[(page - 1) * ItemsPerPage .. Min(page * ItemsPerPage, |details|)]
    ensures page > TotalPages(|details|) ==> r == []
    ensures |r| <= ItemsPerPage
  {
    var start := (page - 1) * ItemsPerPage;
    JsString.Slice(details, start, start + ItemsPerPage)
  }

  /** Every real page but the last is full, and the last holds `LastPageItemsCount` details. */
  lemma PageSizes<T>(details: seq<T>, page: int)
    requires 1 <= page <= TotalPages(|details|)
    ensures page < TotalPages(|details|) ==> |PageItems(details, page)| == ItemsPerPage
    ensures page == TotalPages(|details|) ==> |PageItems(details, page)| == LastPageItemsCount(|details|)
  {
  }

  /** Detail `i` of the list is detail `i % 5` of page `i / 5 + 1`. */
  lemma ItemPage<T>(details: seq<T>, i: nat)
    requires i < |details|
    ensures 1 <= i / ItemsPerPage + 1 <= TotalPages(|details|)
    ensures i % ItemsPerPage < |PageItems(details, i / ItemsPerPage + 1)|
    ensures PageItems(details, i / ItemsPerPage + 1)[i % ItemsPerPage] == details[i]
  {
  }

  /** The concatenation of pages `k` to `last`. */
  function PagesFrom<T>(details: seq<T>, k: int, last: int): seq<T>
    decreases last - k
  {
    if k > last then [] else PageItems(details, k) + PagesFrom(details, k + 1, last)
  }

  /** The real pages, read in order, are the list itself: nothing is lost, duplicated or reordered. */
  lemma {:induction false} PagesPartition<T>(details: seq<T>)
    ensures PagesFrom(details, 1, TotalPages(|details|)) == details
  {
    if TotalPages(|details|) > 0 {
      PagesFromSuffix(details, 1);
    }
  }

  /** Pages `k` onwards are the list from the first detail of page `k`. */
  lemma {:induction false} PagesFromSuffix<T>(details: seq<T>, k: int)
    requires 1 <= k <= TotalPages(|details|)
    ensures (k - 1) * ItemsPerPage < |details|
    ensures PagesFrom(details, k, TotalPages(|details|)) == details[(k - 1) * ItemsPerPage..]
    decreases TotalPages(|details|) - k
  {
    var t := TotalPages(|details|);
    if k < t {
      PagesFromSuffix(details, k + 1);
      assert details[(k - 1) * ItemsPerPage..] ==
        details[(k - 1) * ItemsPerPage .. k * ItemsPerPage] + details[k * ItemsPerPage..];
    } else {
      assert PagesFrom(details, k + 1, t) == [];
    }
  }

  /** `goToPreviousPage`: step back unless on page 1. */
  function PreviousPage(page: int): (r: int)
    ensures r == page <==> page <= 1
    ensures r != page ==> r == page - 1
    ensures page >= 1 ==> r >= 1
  {
    if page > 1 then page - 1 else page
  }

  /** `goToNextPage`: from the last real page move onto the synthetic page when there is one;
      otherwise step forward only while below the last real page. */
  function NextPage(page: int, n: nat): (r: int)
    ensures r == page || r == page + 1
    ensures r == page + 1 <==> page < EffectivePageCount(n)
  {
    if page == TotalPages(n) && NeedsSyntheticPage(n) then page + 1
    else if page < TotalPages(n) then page + 1
    else page
  }

  /** The pages navigation can reach: `1 .. EffectivePageCount`, and page 1 of an empty list. */
  predicate ValidPage(page: int, n: nat) {
    1 <= page && (page <= EffectivePageCount(n) || page == 1)
  }

  /** Both navigation steps keep the page valid; past either edge they do nothing. */
  lemma NavigationStaysInRange(page: int, n: nat)
    requires ValidPage(page, n)
    ensures ValidPage(PreviousPage(page), n)
    ensures ValidPage(NextPage(page, n), n)
    ensures PreviousPage(page) != page <==> page > 1
    ensures NextPage(page, n) != page <==> page < EffectivePageCount(n)
  {
  }

  /** Only the step from the last real page of an exactly-full list reaches the synthetic page. */
  lemma NextReachesSyntheticPage(page: int, n: nat)
    requires ValidPage(page, n)
    ensures (page <= TotalPages(n) < NextPage(page, n)) <==> (page == TotalPages(n) && NeedsSyntheticPage(n))
  {
  }

  /** Forward then back returns to the starting page, except on the last page where forward is a
      no-op; back then forward likewise, except on page 1. */
  lemma NavigationRoundTrip(page: int, n: nat)
    requires ValidPage(page, n)
    ensures page < EffectivePageCount(n) ==> PreviousPage(NextPage(page, n)) == page
    ensures page > 1 ==> NextPage(PreviousPage(page), n) == page
  {
  }

  /** The page-number window: pages `start .. end`, with ellipses before and after it. */
  datatype Window = Window(start: int, end: int, leadingEllipsis: bool, trailingEllipsis: bool)

  function Min(a: int, b: int): int { if a < b then a else b }
  function Max(a: int, b: int): int { if a < b then b else a }

  /** The window computation of `renderPaginationButtons`, for `actualTotal` pages. */
  function PageWindow(current: int, actualTotal: int): (w: Window)
    ensures 1 <= current <= actualTotal ==>
              && 1 <= w.start <= current <= w.end <= actualTotal
              && w.end - w.start + 1 == Min(MaxVisiblePages, actualTotal)
  {
    var half := MaxVisiblePages / 2;
    var (start, end) :=
      if current <= half + 1 then
        (1, Min(MaxVisiblePages, actualTotal))
      else if current >= actualTotal - half then
        (Max(1, actualTotal - MaxVisiblePages + 1), actualTotal)
      else
        (current - half, current + half);
    Window(start, end, start > 1, end < actualTotal)
  }

  /** Reference placement of the window: the `MaxVisiblePages` consecutive pages (or all of them)
      centred on the current page as far as the ends allow. */
  function CentredWindow(current: int, actualTotal: int): (int, int) {
    var start := Max(1, Min(current - MaxVisiblePages / 2, actualTotal - MaxVisiblePages + 1));
    (start, Min(start + MaxVisiblePages - 1, actualTotal))
  }

  /** For a current page in range the window holds the current page, stays within the pages, is as
      wide as allowed, is the centred window, and an ellipsis shows exactly when the first or last
      page is hidden. */
  lemma WindowProperties(current: int, actualTotal: int)
    requires 1 <= current <= actualTotal
    ensures var w := PageWindow(current, actualTotal);
      && 1 <= w.start <= current <= w.end <= actualTotal
      && w.end - w.start + 1 == Min(MaxVisiblePages, actualTotal)
      && (w.start, w.end) == CentredWindow(current, actualTotal)
      && (w.leadingEllipsis <==> 1 < w.start)
      && (w.trailingEllipsis <==> w.end < actualTotal)
  {
  }
}
