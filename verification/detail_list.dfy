/** The consumption record's own paginated detail list (the top-level copy of the pagination
    logic in `ConsumptionRecord`): page contents, where the "fully loaded" marker goes, the
    height reserved for it (rows of 101 px, one pixel less on a partial last page), and the
    pagination controls. */
module DetailList {
  import opened Wrappers
  import opened Records
  import P = Pagination

  /** Height of one rendered detail row in the top-level list. */
  const RowHeight: int := 101
  /** Pixel correction subtracted from the filler on a partial last page. */
  const HeightCorrection: int := 1
  /** Height of the marker when it needs no filler. */
  const BaseHeight: int := 56

  /** The parts of a consumption record the list reads; `details` may be absent. A record flagged
      `noData` shows only the empty notice and a category record shows the pie chart and category
      list instead, so neither renders this list. */
  datatype RecordList = RecordList(details: Option<seq<Detail>>, isHighest: bool, noData: bool, isCategory: bool)

  /** The record takes the plain branch of the response view, where this list lives. */
  predicate ListsDetails(rec: RecordList) {
    !rec.noData && !rec.isCategory
  }

  function Count(rec: RecordList): nat {
    if rec.details.Some? then |rec.details.value| else 0
  }

  /** `totalPages`: `ceil(length / 5)`, and 0 when the details are absent or empty. */
  function TotalPages(rec: RecordList): nat {
    if rec.details.Some? && |rec.details.value| > 0 then P.TotalPages(|rec.details.value|) else 0
  }

  /** `getLastPageItemsCount`: 0 without details, else the remainder or 5 when it is 0. */
  function LastPageItemsCount(rec: RecordList): nat {
    if rec.details.None? then 0
    else
      var n := |rec.details.value|;
      if n % P.ItemsPerPage == 0 then P.ItemsPerPage else n % P.ItemsPerPage
  }

  /** `shouldShowCompletionMessageOnNewPage`. */
  predicate NeedsNewPage(rec: RecordList) {
    rec.details.Some? && LastPageItemsCount(rec) == P.ItemsPerPage && TotalPages(rec) > 0
  }

  /** The record-level rules are the shared page arithmetic applied to the number of details. */
  lemma AgreesWithPagination(rec: RecordList)
    ensures TotalPages(rec) == P.TotalPages(Count(rec))
    ensures NeedsNewPage(rec) <==> P.NeedsSyntheticPage(Count(rec))
    ensures rec.details.Some? && Count(rec) > 0 ==> LastPageItemsCount(rec) == P.LastPageItemsCount(Count(rec))
  {
  }

  /** `isLastPage`. */
  predicate IsLastPage(rec: RecordList, page: int) {
    page == TotalPages(rec)
  }

  /** `shouldShowCompletionMessageOnCurrentPage`: never when the marker has a page of its own or
      beyond the real pages; otherwise on the last page, or on every page of a highest-amount record. */
  predicate ShowMarkerOnCurrentPage(rec: RecordList, page: int) {
    if NeedsNewPage(rec) then false
    else if page > TotalPages(rec) then false
    else IsLastPage(rec, page) || rec.isHighest
  }

  /** `getCurrentPageItems`. */
  function CurrentPageItems(rec: RecordList, page: int): seq<Detail> {
    if rec.details.None? then [] else P.PageItems(rec.details.value, page)
  }

  /** `getCompletionMessageHeight`: never less than the 56 px base, never more than a full page. */
  function MarkerHeight(rec: RecordList, page: int): (h: int)
    ensures BaseHeight <= h <= 5 * RowHeight
  {
    if rec.details.Some? && |rec.details.value| <= P.ItemsPerPage then BaseHeight
    else if IsLastPage(rec, page) then
      var last := LastPageItemsCount(rec);
      if last == P.ItemsPerPage && TotalPages(rec) > 1 then 5 * RowHeight
      else if last == P.ItemsPerPage && TotalPages(rec) == 1 then BaseHeight
      else (P.ItemsPerPage - last) * RowHeight - HeightCorrection
    else if page > TotalPages(rec) then 5 * RowHeight
    else BaseHeight
  }

  /** `goToPreviousPage`: the shared previous-page step. */
  function GoToPreviousPage(page: int): int {
    P.PreviousPage(page)
  }

  /** `goToNextPage`: the shared next-page step on this record's detail count; it moves forward
      exactly while below the page count including the synthetic page. */
  function GoToNextPage(rec: RecordList, page: int): (r: int)
    ensures r == P.NextPage(page, Count(rec))
    ensures r == page + 1 <==> page < ActualTotalPages(rec)
    ensures r != page + 1 ==> r == page
  {
    if page == TotalPages(rec) && NeedsNewPage(rec) then page + 1
    else if page < TotalPages(rec) then page + 1
    else page
  }

  /** Page count including the synthetic page (`actualTotalPages`). */
  function ActualTotalPages(rec: RecordList): nat {
    if NeedsNewPage(rec) then TotalPages(rec) + 1 else TotalPages(rec)
  }

  /** The list block: the current page's details and, when shown, the inline marker's height. */
  datatype ListBlock = ListBlock(items: seq<Detail>, inlineMarker: Option<int>)

  /** The pagination block: the synthetic page's marker height when on it, the page-number
      window, and whether the previous / next arrows are enabled. */
  datatype Controls = Controls(syntheticMarker: Option<int>, window: P.Window, previousEnabled: bool, nextEnabled: bool)

  datatype DetailView = DetailView(list: Option<ListBlock>, controls: Option<Controls>)

  /** What the detail area renders on `page`; `open` is `isHighest || showConsumptionDetails`.
      Nothing renders for a `noData` or category record. */
  function Render(rec: RecordList, page: int, open: bool): (r: DetailView)
    ensures r.list.Some? <==> open && ListsDetails(rec) && Count(rec) > 0
    ensures r.list.Some? ==> |r.list.value.items| <= P.ItemsPerPage
    ensures r.controls.Some? <==> open && ListsDetails(rec) && ActualTotalPages(rec) > 1
  {
    var shown := open && ListsDetails(rec);
    var list :=
      if shown && rec.details.Some? && |rec.details.value| > 0 then
        Some(ListBlock(
          CurrentPageItems(rec, page),
          if ShowMarkerOnCurrentPage(rec, page) then Some(MarkerHeight(rec, page)) else None))
      else None;
    var window := P.PageWindow(page, ActualTotalPages(rec));
    var controls :=
      if shown && (TotalPages(rec) > 1 || NeedsNewPage(rec)) then
        if page > TotalPages(rec) then Some(Controls(Some(5 * RowHeight), window, true, false))
        else Some(Controls(None, window, page != 1, !(page == TotalPages(rec) && !NeedsNewPage(rec))))
      else None;
    DetailView(list, controls)
  }

  /** Navigation from page 1 never leaves `1 .. ActualTotalPages`, and each arrow is enabled
      exactly when pressing it changes the page (the arrows on the synthetic page included). */
  lemma ArrowsMatchNavigation(rec: RecordList, page: int, open: bool)
    requires P.ValidPage(page, Count(rec))
    requires Render(rec, page, open).controls.Some?
    ensures var c := Render(rec, page, open).controls.value;
      && (c.previousEnabled <==> GoToPreviousPage(page) != page)
      && (c.nextEnabled <==> GoToNextPage(rec, page) != page)
      && P.ValidPage(GoToPreviousPage(page), Count(rec))
      && P.ValidPage(GoToNextPage(rec, page), Count(rec))
  {
  }

  /** Where the inline marker goes: never when a synthetic page is needed, never past the real
      pages; otherwise exactly on the last page, or on every page of a highest-amount record. */
  lemma MarkerPlacement(rec: RecordList, page: int)
    ensures NeedsNewPage(rec) ==> !ShowMarkerOnCurrentPage(rec, page)
    ensures page > TotalPages(rec) ==> !ShowMarkerOnCurrentPage(rec, page)
    ensures !NeedsNewPage(rec) && page <= TotalPages(rec) ==>
              (ShowMarkerOnCurrentPage(rec, page) <==> page == TotalPages(rec) || rec.isHighest)
  {
  }

  /** On the synthetic page no detail is listed, the marker is not inline, and the pagination block
      shows it at the height of five rows with the next arrow disabled. */
  lemma SyntheticPageView(rec: RecordList, open: bool)
    requires open && ListsDetails(rec) && NeedsNewPage(rec)
    ensures var v := Render(rec, TotalPages(rec) + 1, open);
      && v.list == Some(ListBlock([], None))
      && v.controls.Some?
      && v.controls.value.syntheticMarker == Some(5 * RowHeight)
      && !v.controls.value.nextEnabled
  {
  }

  /** Without a synthetic page, and not a highest-amount record, the marker appears on the last real
      page and on no other page. */
  lemma MarkerOnlyOnLastPage(rec: RecordList, page: int)
    requires Count(rec) > 0 && !NeedsNewPage(rec) && !rec.isHighest && 1 <= page
    ensures ShowMarkerOnCurrentPage(rec, page) <==> page == TotalPages(rec)
  {
  }

  /** On a partial last page of a list longer than a page, the marker fills the missing rows:
      its height plus the correction is one row height per detail the page lacks. */
  lemma MarkerFillsMissingRows(rec: RecordList)
    requires Count(rec) > P.ItemsPerPage && rec.details.Some? && !NeedsNewPage(rec)
    ensures var page := TotalPages(rec);
      MarkerHeight(rec, page) + HeightCorrection ==
        (P.ItemsPerPage - |CurrentPageItems(rec, page)|) * RowHeight
  {
    P.PageSizes(rec.details.value, TotalPages(rec));
  }

  /** The remaining height cases: 56 px for a list of at most five; five rows on an exactly full last
      page of a longer list and past the real pages; 56 px before the last page. */
  lemma MarkerHeightCases(rec: RecordList, page: int)
    ensures rec.details.Some? && Count(rec) <= P.ItemsPerPage ==> MarkerHeight(rec, page) == BaseHeight
    ensures Count(rec) > P.ItemsPerPage && page > TotalPages(rec) ==> MarkerHeight(rec, page) == 5 * RowHeight
    ensures Count(rec) > P.ItemsPerPage && NeedsNewPage(rec) && page == TotalPages(rec) ==>
              MarkerHeight(rec, page) == 5 * RowHeight
    ensures Count(rec) > P.ItemsPerPage && page < TotalPages(rec) ==> MarkerHeight(rec, page) == BaseHeight
  {
  }

  /** An inline marker is always shorter than five rows: the five-row heights of `MarkerHeight`
      belong to an exactly full last page and to pages past the real ones, and on both the marker
      is not inline. */
  lemma InlineMarkerBelowFullPage(rec: RecordList, page: int, open: bool)
    ensures var v := Render(rec, page, open);
      v.list.Some? && v.list.value.inlineMarker.Some? ==> v.list.value.inlineMarker.value < 5 * RowHeight
  {
  }

  /** A `noData` or category record renders neither the list nor the controls, whatever its details. */
  lemma OtherBranchesRenderNothing(rec: RecordList, page: int, open: bool)
    requires rec.noData || rec.isCategory
    ensures Render(rec, page, open) == DetailView(None, None)
  {
  }

  function Sample(n: nat): RecordList {
    RecordList(Some(seq(n, i => Detail("2025/01/01", 100, "store", "1234", "cat"))), false, false, false)
  }

  /** Lists of 0, 3, 5, 7 and 10 details. */
  lemma ScenarioEmpty(page: int)
    requires page >= 1
    ensures TotalPages(Sample(0)) == 0 && ActualTotalPages(Sample(0)) == 0
    ensures !ShowMarkerOnCurrentPage(Sample(0), page) && Render(Sample(0), page, true).list.None?
  {
  }

  lemma ScenarioThree()
    ensures TotalPages(Sample(3)) == 1 && !NeedsNewPage(Sample(3))
    ensures Render(Sample(3), 1, true).list == Some(ListBlock(Sample(3).details.value, Some(BaseHeight)))
  {
    var d := Sample(3).details.value;
    assert d[0..3] == d;
  }

  lemma ScenarioFive()
    ensures TotalPages(Sample(5)) == 1 && NeedsNewPage(Sample(5)) && ActualTotalPages(Sample(5)) == 2
    ensures Render(Sample(5), 1, true).list == Some(ListBlock(Sample(5).details.value, None))
    ensures GoToNextPage(Sample(5), 1) == 2
    ensures Render(Sample(5), 2, true).list == Some(ListBlock([], None))
    ensures Render(Sample(5), 2, true).controls.value.syntheticMarker == Some(5 * RowHeight)
  {
    var d := Sample(5).details.value;
    assert d[0..5] == d;
  }

  lemma ScenarioSevenAndTen()
    ensures TotalPages(Sample(7)) == 2 && LastPageItemsCount(Sample(7)) == 2 && ActualTotalPages(Sample(7)) == 2
    ensures |CurrentPageItems(Sample(7), 1)| == 5 && !ShowMarkerOnCurrentPage(Sample(7), 1)
    ensures |CurrentPageItems(Sample(7), 2)| == 2 && ShowMarkerOnCurrentPage(Sample(7), 2)
    ensures MarkerHeight(Sample(7), 2) == 3 * RowHeight - 1
    ensures TotalPages(Sample(10)) == 2 && ActualTotalPages(Sample(10)) == 3
    ensures Render(Sample(10), 3, true).controls.value.syntheticMarker == Some(5 * RowHeight)
  {
  }

  /** The record fixtures: 25 details give five full pages and a synthetic sixth; 12 give a last page of 2. */
  lemma FixtureSizes()
    ensures TotalPages(Sample(25)) == 5 && NeedsNewPage(Sample(25)) && ActualTotalPages(Sample(25)) == 6
    ensures TotalPages(Sample(12)) == 3 && LastPageItemsCount(Sample(12)) == 2 && !NeedsNewPage(Sample(12))
  {
  }

  /** Unlike the category lists, a top-level list of exactly five details offers the controls,
      so the synthetic page and its marker can be reached. */
  lemma FiveDetailsReachMarker()
    ensures Render(Sample(5), 1, true).controls.Some?
    ensures Render(Sample(5), 1, true).controls.value.nextEnabled
    ensures Render(Sample(5), GoToNextPage(Sample(5), 1), true).controls.value.syntheticMarker.Some?
  {
  }
}
