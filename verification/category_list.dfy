/** The category view of a consumption record: the list of categories, at most one of them
    expanded (`toggleCategory`), and the per-category copy of the pagination logic, whose state
    lives in a map from category index to `{currentPage, itemsPerPage}` and whose marker rows are
    105 px high with no correction. */
module CategoryList {
  import opened Wrappers
  import opened Records
  import P = Pagination

  /** Height of one rendered detail row in a category list. */
  const RowHeight: int := 105
  /** Height of the marker when it needs no filler. */
  const BaseHeight: int := 56

  /** A category's pagination entry. Its `itemsPerPage` is always 5: `toggleCategory` stores 5 and
      `goToCategoryPage` copies the entry, so only the current page is kept. */
  datatype PageState = PageState(currentPage: int)

  /** The entry used when a category has none (`categoryPagination[i] || {currentPage: 1, ...}`). */
  const DefaultState := PageState(1)

  /** The component state of the category view: categories, `selectedCategoryIndex`, and
      `categoryPagination`. */
  datatype CategoryPanel = CategoryPanel(categories: seq<Category>, selected: int, pagination: map<int, PageState>)

  /** The state a category view starts in: everything collapsed, nothing selected, no pagination. */
  function InitialPanel(categories: seq<Category>): (v: CategoryPanel)
    ensures Coherent(v) <==> forall j :: 0 <= j < |categories| ==> !categories[j].isExpanded
  {
    CategoryPanel(categories, -1, map[])
  }

  function StateOf(v: CategoryPanel, i: int): PageState {
    if i in v.pagination then v.pagination[i] else DefaultState
  }

  /** `categories[i]?.details || []`. */
  function DetailsOf(v: CategoryPanel, i: int): seq<Detail> {
    if 0 <= i < |v.categories| then v.categories[i].details else []
  }

  function CurrentPage(v: CategoryPanel, i: int): int {
    StateOf(v, i).currentPage
  }

  function TotalPages(v: CategoryPanel, i: int): nat {
    P.TotalPages(|DetailsOf(v, i)|)
  }

  /** `getCategoryCurrentPageItems(i, details)`. */
  function CurrentPageItems(v: CategoryPanel, i: int, details: seq<Detail>): seq<Detail> {
    P.PageItems(details, CurrentPage(v, i))
  }

  /** `shouldShowCategoryCompletionMessageOnNewPage`. */
  predicate NeedsNewPage(v: CategoryPanel, i: int) {
    P.LastPageItemsCount(|DetailsOf(v, i)|) == P.ItemsPerPage && TotalPages(v, i) > 0
  }

  /** `shouldShowCategoryCompletionMessage`. */
  predicate ShowMarker(v: CategoryPanel, i: int) {
    if NeedsNewPage(v, i) then false
    else if CurrentPage(v, i) > TotalPages(v, i) then false
    else CurrentPage(v, i) == TotalPages(v, i)
  }

  /** `getCategoryCompletionMessageHeight`: never less than the 56 px base, never more than a full page. */
  function MarkerHeight(v: CategoryPanel, i: int): (h: int)
    ensures BaseHeight <= h <= 5 * RowHeight
  {
    var n := |DetailsOf(v, i)|;
    var page := CurrentPage(v, i);
    if n <= P.ItemsPerPage then BaseHeight
    else if page == TotalPages(v, i) then
      var last := P.LastPageItemsCount(n);
      if last == P.ItemsPerPage && TotalPages(v, i) > 1 then 5 * RowHeight
      else if last == P.ItemsPerPage && TotalPages(v, i) == 1 then BaseHeight
      else (P.ItemsPerPage - last) * RowHeight
    else if page > TotalPages(v, i) then 5 * RowHeight
    else BaseHeight
  }

  function SetPage(v: CategoryPanel, i: int, page: int): CategoryPanel {
    v.(pagination := v.pagination[i := PageState(page)])
  }

  /** `goToCategoryPage(i, page)`. On the last real page of an exactly-full list any page is taken
      as is; otherwise a real page or the synthetic page, and nothing else. */
  function GoToPage(v: CategoryPanel, i: int, page: int): (r: CategoryPanel)
    ensures r.categories == v.categories && r.selected == v.selected
    ensures r == v || CurrentPage(r, i) == page
  {
    var total := TotalPages(v, i);
    if CurrentPage(v, i) == total && NeedsNewPage(v, i) then SetPage(v, i, page)
    else if 1 <= page <= total then SetPage(v, i, page)
    else if page == total + 1 && NeedsNewPage(v, i) then SetPage(v, i, page)
    else v
  }

  function ActualTotalPages(v: CategoryPanel, i: int): nat {
    if NeedsNewPage(v, i) then TotalPages(v, i) + 1 else TotalPages(v, i)
  }

  /** The pagination block of a category: the page-number window and whether the previous / next
      arrows are enabled. */
  datatype Controls = Controls(window: P.Window, previousEnabled: bool, nextEnabled: bool)

  /** `renderCategoryPaginationButtons(i)`: nothing for a single page. */
  function Buttons(v: CategoryPanel, i: int): (r: Option<Controls>)
    ensures r.None? <==> ActualTotalPages(v, i) <= 1
  {
    var actual := ActualTotalPages(v, i);
    if actual <= 1 then None
    else Some(Controls(P.PageWindow(CurrentPage(v, i), actual), CurrentPage(v, i) != 1, CurrentPage(v, i) != actual))
  }

  /** What an expanded category shows below its header. */
  datatype CategoryBody =
    | NoDetails
    | Listing(syntheticMarker: Option<int>, items: seq<Detail>, inlineMarker: Option<int>, controls: Option<Controls>)

  /** The expanded body of category `i`: on the synthetic page only the marker; otherwise the page's
      details and the inline marker when due; the controls only for more than five details. */
  function ExpandedBody(v: CategoryPanel, i: int): (r: CategoryBody)
    ensures r.NoDetails? <==> |DetailsOf(v, i)| == 0
    ensures r.Listing? ==> |r.items| <= P.ItemsPerPage
    ensures r.Listing? ==> (r.controls.Some? <==> |DetailsOf(v, i)| > P.ItemsPerPage)
    ensures r.Listing? && r.syntheticMarker.Some? ==> r.items == [] && r.inlineMarker.None?
  {
    var details := DetailsOf(v, i);
    if |details| == 0 then NoDetails
    else
      var controls := if |details| > 5 then Buttons(v, i) else None;
      if CurrentPage(v, i) > TotalPages(v, i) && NeedsNewPage(v, i) then
        Listing(Some(MarkerHeight(v, i)), [], None, controls)
      else
        Listing(None, CurrentPageItems(v, i, details), if ShowMarker(v, i) then Some(MarkerHeight(v, i)) else None, controls)
  }

  /** At most one category is expanded, and `selected` names it (or is -1 when none is). */
  predicate Coherent(v: CategoryPanel) {
    || (v.selected == -1 && forall j :: 0 <= j < |v.categories| ==> !v.categories[j].isExpanded)
    || (0 <= v.selected < |v.categories| &&
        forall j :: 0 <= j < |v.categories| ==> (v.categories[j].isExpanded <==> j == v.selected))
  }

  /** `toggleCategory(index)`; `None` stands for the TypeError an index with no category raises. */
  function ToggleCategory(v: CategoryPanel, index: int): (r: Option<CategoryPanel>)
    ensures r.Some? <==> 0 <= index < |v.categories|
    ensures r.Some? ==> |r.value.categories| == |v.categories|
    ensures r.Some? ==> forall j :: 0 <= j < |v.categories| ==>
              r.value.categories[j] == v.categories[j].(isExpanded := r.value.categories[j].isExpanded)
    ensures r.Some? && v.categories[index].isExpanded ==>
              && !r.value.categories[index].isExpanded
              && r.value.selected == -1
              && r.value.pagination == v.pagination
              && forall j :: 0 <= j < |v.categories| && j != index ==>
                   r.value.categories[j].isExpanded == v.categories[j].isExpanded
    ensures r.Some? && !v.categories[index].isExpanded ==>
              && (forall j :: 0 <= j < |v.categories| ==> (r.value.categories[j].isExpanded <==> j == index))
              && r.value.selected == index
              && StateOf(r.value, index) == DefaultState
              && forall k :: k != index ==> StateOf(r.value, k) == StateOf(v, k)
  {
    if !(0 <= index < |v.categories|) then None
    else
      var cats := v.categories;
      if cats[index].isExpanded then
        Some(v.(categories := cats[index := cats[index].(isExpanded := false)], selected := -1))
      else
        Some(v.(categories := seq(|cats|, j requires 0 <= j < |cats| => cats[j].(isExpanded := j == index)),
                selected := index,
                pagination := v.pagination[index := DefaultState]))
  }

  /** Toggling keeps at most one category expanded, with the selection naming it. */
  lemma ToggleKeepsCoherent(v: CategoryPanel, index: int)
    requires Coherent(v) && 0 <= index < |v.categories|
    ensures Coherent(ToggleCategory(v, index).value)
  {
  }

  /** Expanding a collapsed category and toggling it again leaves every category collapsed. */
  lemma ToggleTwiceCollapses(v: CategoryPanel, index: int)
    requires 0 <= index < |v.categories| && !v.categories[index].isExpanded
    ensures var w := ToggleCategory(ToggleCategory(v, index).value, index).value;
      && w.selected == -1
      && forall j :: 0 <= j < |w.categories| ==> !w.categories[j].isExpanded
  {
  }

  /** A freshly expanded category shows its first page. */
  lemma ExpandShowsFirstPage(v: CategoryPanel, index: int)
    requires 0 <= index < |v.categories| && !v.categories[index].isExpanded
    ensures var w := ToggleCategory(v, index).value;
      CurrentPage(w, index) == 1 && DetailsOf(w, index) == DetailsOf(v, index)
  {
  }

  /** `goToCategoryPage` touches only the entry of its own category. */
  lemma GoToPageLocal(v: CategoryPanel, i: int, page: int)
    ensures var w := GoToPage(v, i, page);
      && w.categories == v.categories && w.selected == v.selected
      && forall k :: k != i ==> StateOf(w, k) == StateOf(v, k)
  {
  }

  /** Outside the last-real-page case the jump is range checked: a real page or the synthetic page
      is taken, any other page is ignored. */
  lemma GoToPageChecked(v: CategoryPanel, i: int, page: int)
    requires !(CurrentPage(v, i) == TotalPages(v, i) && NeedsNewPage(v, i))
    ensures CurrentPage(GoToPage(v, i, page), i) ==
              if 1 <= page <= ActualTotalPages(v, i) then page else CurrentPage(v, i)
  {
  }

  /** Source quirk: on the last real page of an exactly-full list `goToCategoryPage` takes any
      requested page without a range check. */
  lemma GoToPageUnchecked(v: CategoryPanel, i: int, page: int)
    requires CurrentPage(v, i) == TotalPages(v, i) && NeedsNewPage(v, i)
    ensures CurrentPage(GoToPage(v, i, page), i) == page
  {
  }

  /** A page in `1 .. ActualTotalPages`. */
  predicate InRange(v: CategoryPanel, i: int) {
    1 <= CurrentPage(v, i) <= ActualTotalPages(v, i)
  }

  /** The arrows only ever request the neighbouring page, and only when enabled, so navigating
      through them keeps the page in range despite the unchecked jump. */
  lemma ArrowsKeepInRange(v: CategoryPanel, i: int)
    requires InRange(v, i) && ExpandedBody(v, i).Listing? && ExpandedBody(v, i).controls.Some?
    ensures var c := ExpandedBody(v, i).controls.value;
      && (c.previousEnabled ==> InRange(GoToPage(v, i, CurrentPage(v, i) - 1), i)
                                && CurrentPage(GoToPage(v, i, CurrentPage(v, i) - 1), i) == CurrentPage(v, i) - 1)
      && (c.nextEnabled ==> InRange(GoToPage(v, i, CurrentPage(v, i) + 1), i)
                            && CurrentPage(GoToPage(v, i, CurrentPage(v, i) + 1), i) == CurrentPage(v, i) + 1)
  {
  }

  /** Source quirk: a category of exactly five details needs the synthetic page, so the marker is
      kept off its only page, but the controls are shown only above five details, so the synthetic
      page, and with it the marker, can never be reached. */
  lemma FiveDetailsNeverShowMarker(v: CategoryPanel, i: int)
    requires |DetailsOf(v, i)| == 5 && CurrentPage(v, i) == 1
    ensures NeedsNewPage(v, i)
    ensures ExpandedBody(v, i) == Listing(None, DetailsOf(v, i), None, None)
  {
    var d := DetailsOf(v, i);
    assert d[0..5] == d;
  }

  /** Expanding a category of exactly five details therefore shows its details with no marker and no
      controls. */
  lemma ExpandFiveDetails(v: CategoryPanel, index: int)
    requires 0 <= index < |v.categories| && !v.categories[index].isExpanded
    requires |v.categories[index].details| == 5
    ensures var w := ToggleCategory(v, index).value;
      ExpandedBody(w, index) == Listing(None, v.categories[index].details, None, None)
  {
    var w := ToggleCategory(v, index).value;
    ExpandShowsFirstPage(v, index);
    FiveDetailsNeverShowMarker(w, index);
  }

  /** Where the inline marker goes: never when the synthetic page is needed, otherwise exactly on
      the last real page. */
  lemma MarkerPlacement(v: CategoryPanel, i: int)
    ensures NeedsNewPage(v, i) ==> !ShowMarker(v, i)
    ensures !NeedsNewPage(v, i) ==> (ShowMarker(v, i) <==> CurrentPage(v, i) == TotalPages(v, i))
    ensures NeedsNewPage(v, i) <==> P.NeedsSyntheticPage(|DetailsOf(v, i)|)
  {
  }

  /** For at most five details the marker is 56 px. For a longer list: on a partial last page it
      fills exactly the missing rows; on an exactly full last page and past the real pages it is
      five rows high; before the last page it is 56 px. */
  lemma MarkerHeights(v: CategoryPanel, i: int)
    ensures |DetailsOf(v, i)| <= P.ItemsPerPage ==> MarkerHeight(v, i) == BaseHeight
    ensures |DetailsOf(v, i)| > P.ItemsPerPage && !NeedsNewPage(v, i) && CurrentPage(v, i) == TotalPages(v, i) ==>
              MarkerHeight(v, i) == (P.ItemsPerPage - |CurrentPageItems(v, i, DetailsOf(v, i))|) * RowHeight
    ensures |DetailsOf(v, i)| > P.ItemsPerPage && NeedsNewPage(v, i) && CurrentPage(v, i) == TotalPages(v, i) ==>
              MarkerHeight(v, i) == 5 * RowHeight
    ensures |DetailsOf(v, i)| > P.ItemsPerPage && CurrentPage(v, i) > TotalPages(v, i) ==>
              MarkerHeight(v, i) == 5 * RowHeight
    ensures |DetailsOf(v, i)| > P.ItemsPerPage && CurrentPage(v, i) < TotalPages(v, i) ==>
              MarkerHeight(v, i) == BaseHeight
  {
    if |DetailsOf(v, i)| > P.ItemsPerPage && CurrentPage(v, i) == TotalPages(v, i) {
      P.PageSizes(DetailsOf(v, i), TotalPages(v, i));
    }
  }

  /** An inline marker is always shorter than five rows: the five-row height on an exactly full last
      page of a longer list is never asked for, because the inline marker is withheld there. */
  lemma InlineMarkerBelowFullPage(v: CategoryPanel, i: int)
    ensures var b := ExpandedBody(v, i);
      b.Listing? && b.inlineMarker.Some? ==> b.inlineMarker.value < 5 * RowHeight
  {
  }

  /** The unchecked jump in action: from the last real page of a ten-detail category, a request for
      page 100 is taken, and page 100 renders as the synthetic page. */
  lemma JumpFarPastTheEnd(v: CategoryPanel, i: int)
    requires |DetailsOf(v, i)| == 10 && CurrentPage(v, i) == 2
    ensures var w := GoToPage(v, i, 100);
      CurrentPage(w, i) == 100 && ExpandedBody(w, i).Listing? && ExpandedBody(w, i).syntheticMarker == Some(5 * RowHeight)
  {
  }

  /** The arrows after that jump: the window keeps both arrows enabled, yet the range check in
      `goToCategoryPage` rejects pages 99 and 101, so neither arrow moves the page. */
  lemma ArrowsStuckPastTheEnd(v: CategoryPanel, i: int)
    requires |DetailsOf(v, i)| == 10 && CurrentPage(v, i) == 2
    ensures var w := GoToPage(v, i, 100);
      && ExpandedBody(w, i).Listing? && ExpandedBody(w, i).controls.Some?
      && ExpandedBody(w, i).controls.value.previousEnabled && ExpandedBody(w, i).controls.value.nextEnabled
      && CurrentPage(GoToPage(w, i, 99), i) == 100
      && CurrentPage(GoToPage(w, i, 101), i) == 100
  {
  }

  function SampleCategory(name: string, n: nat): Category {
    Category(name, 0, Fixed(0), "#1D9C58", seq(n, k => Detail("2025/01/01", 100, "store", "1234", name)), false)
  }

  /** The department-store fixture: twenty details give four full pages and a synthetic fifth. */
  lemma DepartmentStoreFixture()
    ensures var v := InitialPanel([SampleCategory("百貨公司", 20)]);
      TotalPages(v, 0) == 4 && NeedsNewPage(v, 0) && ActualTotalPages(v, 0) == 5
  {
  }
}
