# Consumption-record chat front ends, modelled in Dafny

This project models the decision logic of a credit-card consumption-analysis chat application.
The application has two front ends, `cc` (credit card) and `cs` (customer service), which share
one dialog model. The model covers these parts:

- **Detail-list pagination of a consumption record** (`ConsumptionRecord.tsx`). It is written
  twice, once for the record's own list and once for each expanded category. The model covers:
  - five details per page and `ceil(n / 5)` real pages;
  - an extra synthetic page that carries the "fully loaded" marker when the last real page is
    exactly full;
  - bounded previous/next navigation and the unchecked category page jump;
  - where the marker goes and how tall it is: rows of 101 px with a -1 px correction at top
    level, rows of 105 px with no correction in a category;
  - the three-wide page-number window with its ellipses.
- **The category view** of the same component: `toggleCategory` keeps at most one category
  expanded. The model also covers the negative-pie grouping of details by category, with a
  stable sort by absolute amount and a closing "更多" group, the y-axis rounding of the line
  chart, and the per-store breakdown of a multi-store record.
- **The services.** The mock service routes keywords by first match. Each of the two services
  has a code-to-text table. The real service extracts a `tid` from the user's text, normalises
  replies, remembers the request id and formats the device strings.
- **The two dialog hooks** (`SystemResponse.ts` in `cc` and in `cs`):
  - the option-click request cycle, with its loading guard and its mapping from a reply to a
    dialog entry;
  - the introduction option;
  - the token-limit, idle-timeout and front-end-error screens;
  - retry, close, reset and the details toggle.
- **The two charts.**
  - `VariablePieChart`: hex-to-rgba fading, slice filtering and colouring, label wrapping,
    selection restyling and click forwarding.
  - `LineChart`: width clamping, the mobile tooltip position, the date text, peak detection
    with the highlight decision, and the axis-label margins.

Every operation is a pure function over immutable datatypes. The exception is peak detection,
which is a method with a loop. A component's React state becomes a datatype, and a state setter
becomes a function from the old state to the new one.

Two behaviours of the code are kept as written:
- The marker-height rule keeps all four of the code's branches. One of them gives five rows
  (505 px at top level, 525 px in a category) on an exactly full last page of a list longer
  than a page. That branch is kept as written, although no call site ever evaluates it: the only
  caller on that page is the inline marker, and the inline marker is withheld whenever the last
  page is exactly full. The lemmas `DetailList.InlineMarkerBelowFullPage` and
  `CategoryList.InlineMarkerBelowFullPage` state this.
- The category page jump accepts any page from the last real page of an exactly full list.

## Model

| member | source | states |
|---|---|---|
| Pagination.TotalPages | cc/src/components/modules/consumption/ConsumptionRecord.tsx:47-48 | the page count is the fewest pages of five that hold all n details, and it is 0 exactly for an empty list |
| Pagination.LastPageItemsCount | cc/src/components/modules/consumption/ConsumptionRecord.tsx:951-956 | the last page holds 1 to 5 details, and together with the full pages before it accounts for every detail |
| Pagination.NeedsSyntheticPageIff | cc/src/components/modules/consumption/ConsumptionRecord.tsx:923-929 | a synthetic page is needed exactly when the list is non-empty and its length is a multiple of 5 |
| Pagination.PageItems | cc/src/components/modules/consumption/ConsumptionRecord.tsx:944-949 | a real page p shows details (p-1)*5 up to min(5p, n); a page past the last real one shows nothing; no page shows more than 5 |
| Pagination.PageSizes | cc/src/components/modules/consumption/ConsumptionRecord.tsx:944-956 | every real page but the last is full, and the last holds the last-page count |
| Pagination.ItemPage | cc/src/components/modules/consumption/ConsumptionRecord.tsx:944-949 | detail i is shown as item i mod 5 of page i/5 + 1 |
| Pagination.PagesPartition | cc/src/components/modules/consumption/ConsumptionRecord.tsx:944-949 | the real pages read in order are exactly the detail list: nothing lost, duplicated or reordered |
| Pagination.PreviousPage | cc/src/components/modules/consumption/ConsumptionRecord.tsx:65-69 | the page stays put exactly on page 1 or below, otherwise moves back by one, and never drops below page 1 |
| Pagination.NextPage | cc/src/components/modules/consumption/ConsumptionRecord.tsx:72-83 | the page moves forward by one exactly while it is below the page count including the synthetic page, and otherwise stays put |
| Pagination.NavigationStaysInRange | cc/src/components/modules/consumption/ConsumptionRecord.tsx:65-83 | previous and next keep the page within 1 to the effective page count; each changes the page exactly when it is not already at its edge |
| Pagination.NextReachesSyntheticPage | cc/src/components/modules/consumption/ConsumptionRecord.tsx:72-83 | next crosses past the real pages exactly from the last real page of a list that needs the synthetic page |
| Pagination.NavigationRoundTrip | cc/src/components/modules/consumption/ConsumptionRecord.tsx:65-83 | next then previous returns to the start below the last page; previous then next does the same above page 1 |
| Pagination.PageWindow | cc/src/components/modules/consumption/ConsumptionRecord.tsx:86-153 | for a current page in range, the window lies within the pages, contains the current page, and is min(3, pages) wide |
| Pagination.WindowProperties | cc/src/components/modules/consumption/ConsumptionRecord.tsx:86-153 | for a current page in range, the window contains it, stays within the pages, is min(3, pages) wide, equals the independently defined centred window, and each ellipsis shows exactly when its end page is hidden |
| DetailList.AgreesWithPagination | cc/src/components/modules/consumption/ConsumptionRecord.tsx:923-956 | the record-level page count, synthetic-page rule and last-page count are the shared page arithmetic applied to the number of details, absent details counting as none |
| DetailList.MarkerPlacement | cc/src/components/modules/consumption/ConsumptionRecord.tsx:931-941 | no inline marker when a synthetic page is needed or past the real pages; otherwise the marker shows exactly on the last page or when the record is the highest |
| DetailList.MarkerOnlyOnLastPage | cc/src/components/modules/consumption/ConsumptionRecord.tsx:931-961 | without a synthetic page, for a record that is not the highest, the marker shows on the last real page and on no other |
| DetailList.MarkerFillsMissingRows | cc/src/components/modules/consumption/ConsumptionRecord.tsx:970-985 | on a partial last page of a list longer than a page, the marker height plus 1 px is 101 px for each row the page lacks |
| DetailList.MarkerHeightCases | cc/src/components/modules/consumption/ConsumptionRecord.tsx:964-993 | 56 px for at most five details; 505 px past the real pages and on an exactly full last page of a longer list; 56 px before the last page |
| DetailList.MarkerHeight | cc/src/components/modules/consumption/ConsumptionRecord.tsx:964-993 | the marker is never shorter than 56 px and never taller than five rows (505 px) |
| DetailList.GoToNextPage | cc/src/components/modules/consumption/ConsumptionRecord.tsx:72-83 | the record-level next step is the shared next step on the detail count, moving forward exactly while below the page count including the synthetic page |
| DetailList.Render | cc/src/components/modules/consumption/ConsumptionRecord.tsx:1027-1297 | the list block shows exactly when the area is open, the record is neither `noData` nor a category record, and there are details, with at most five of them; the controls show exactly under the same two conditions when there is more than one page, the synthetic page included |
| DetailList.OtherBranchesRenderNothing | cc/src/components/modules/consumption/ConsumptionRecord.tsx:1027-1046 | a `noData` record or a category record renders neither the detail list nor its controls |
| DetailList.InlineMarkerBelowFullPage | cc/src/components/modules/consumption/ConsumptionRecord.tsx:1203-1206 | an inline marker is always shorter than five rows, so the five-row branch of the height rule is never reached through it |
| DetailList.ArrowsMatchNavigation | cc/src/components/modules/consumption/ConsumptionRecord.tsx:1217-1297 | each arrow is enabled exactly when pressing it changes the page, including the arrows of the synthetic page, and both steps keep the page valid |
| DetailList.SyntheticPageView | cc/src/components/modules/consumption/ConsumptionRecord.tsx:1217-1259 | on the synthetic page of a record that is neither `noData` nor a category record, no detail is listed, the marker is not inline, the controls show it at 505 px, and the next arrow is disabled |
| DetailList.ScenarioEmpty | cc/src/components/modules/consumption/ConsumptionRecord.tsx:1169-1171 | an empty list has no pages, no marker and no list block |
| DetailList.ScenarioThree | cc/src/components/modules/consumption/ConsumptionRecord.tsx:1169-1210 | three details form one page that shows all of them with a 56 px marker |
| DetailList.ScenarioFive | cc/src/components/modules/consumption/ConsumptionRecord.tsx:1217-1229 | five details need a synthetic second page that next reaches, where only the 505 px marker shows |
| DetailList.ScenarioSevenAndTen | cc/src/components/modules/consumption/ConsumptionRecord.tsx:964-993 | seven details give pages of 5 and 2 with a 302 px marker on page 2; ten details give a synthetic third page |
| DetailList.FixtureSizes | cc/src/components/atoms/consumptionRecords.ts:709-885 | the 25-detail record has five full pages and a synthetic sixth; a 12-detail record has a last page of 2 |
| DetailList.FiveDetailsReachMarker | cc/src/components/modules/consumption/ConsumptionRecord.tsx:1217-1220 | a top-level list of exactly five details shows the controls with next enabled, and next leads to the synthetic marker |
| CategoryList.InitialPanel | cc/src/components/modules/consumption/ConsumptionRecord.tsx:256 | the initial category view, with no selection and no pagination entries, is coherent exactly when no category starts expanded |
| CategoryList.ToggleCategory | cc/src/components/modules/consumption/ConsumptionRecord.tsx:229-253 | an index with no category fails; collapsing an expanded category leaves the others alone and clears the selection; expanding one collapses every other category, selects it and resets only its page to 1 |
| CategoryList.ToggleKeepsCoherent | cc/src/components/modules/consumption/ConsumptionRecord.tsx:229-253 | toggling keeps at most one category expanded, with the selection naming it or -1 |
| CategoryList.ToggleTwiceCollapses | cc/src/components/modules/consumption/ConsumptionRecord.tsx:233-235 | expanding a category and toggling it again leaves every category collapsed and nothing selected |
| CategoryList.ExpandShowsFirstPage | cc/src/components/modules/consumption/ConsumptionRecord.tsx:245-249 | a freshly expanded category shows its first page of its own details |
| CategoryList.Buttons | cc/src/components/modules/consumption/ConsumptionRecord.tsx:359-368 | the category controls are absent exactly when there is at most one page, the synthetic page included |
| CategoryList.GoToPageLocal | cc/src/components/modules/consumption/ConsumptionRecord.tsx:328-356 | a page jump changes only its own category's pagination entry |
| CategoryList.GoToPage | cc/src/components/modules/consumption/ConsumptionRecord.tsx:329-356 | a jump never touches the categories or the selection, and either takes the requested page or changes nothing |
| CategoryList.GoToPageChecked | cc/src/components/modules/consumption/ConsumptionRecord.tsx:342-355 | away from the last real page of an exactly full list, a jump is taken exactly when it names a real page or the synthetic page |
| CategoryList.GoToPageUnchecked | cc/src/components/modules/consumption/ConsumptionRecord.tsx:333-340 | on the last real page of an exactly full list, any requested page is taken as it is |
| CategoryList.ArrowsKeepInRange | cc/src/components/modules/consumption/ConsumptionRecord.tsx:433-462 | an enabled arrow moves to the neighbouring page and keeps the page in range, despite the unchecked jump |
| CategoryList.FiveDetailsNeverShowMarker | cc/src/components/modules/consumption/ConsumptionRecord.tsx:513-568 | a category of exactly five details needs the synthetic page, yet shows its details with no marker and no controls, so the marker can never be reached |
| CategoryList.ExpandFiveDetails | cc/src/components/modules/consumption/ConsumptionRecord.tsx:505-568 | expanding a five-detail category shows exactly its details, with no marker and no controls |
| CategoryList.MarkerPlacement | cc/src/components/modules/consumption/ConsumptionRecord.tsx:276-290 | no inline marker when the synthetic page is needed; otherwise the marker shows exactly on the last real page; the category rule is the shared synthetic-page rule |
| CategoryList.MarkerHeights | cc/src/components/modules/consumption/ConsumptionRecord.tsx:293-326 | 56 px for at most five details; for a longer list: 105 px for each missing row on a partial last page with no correction, 525 px on an exactly full last page and past the real pages, and 56 px before the last page |
| CategoryList.InlineMarkerBelowFullPage | cc/src/components/modules/consumption/ConsumptionRecord.tsx:555-558 | an inline category marker is always shorter than five rows, so the five-row branch for an exactly full last page is never reached through it |
| CategoryList.MarkerHeight | cc/src/components/modules/consumption/ConsumptionRecord.tsx:293-326 | the category marker is never shorter than 56 px and never taller than five rows (525 px) |
| CategoryList.ExpandedBody | cc/src/components/modules/consumption/ConsumptionRecord.tsx:513-575 | the "no details" notice shows exactly for an empty category; otherwise at most five details are listed, the controls show exactly for more than five details, and the synthetic page lists nothing and has no inline marker |
| CategoryList.JumpFarPastTheEnd | cc/src/components/modules/consumption/ConsumptionRecord.tsx:328-340 | from page 2 of a ten-detail category, a request for page 100 is taken, and that page renders as the synthetic page |
| CategoryList.ArrowsStuckPastTheEnd | cc/src/components/modules/consumption/ConsumptionRecord.tsx:329-356 | after that jump both arrows are enabled, yet the range check rejects pages 99 and 101, so neither arrow moves the page |
| CategoryList.DepartmentStoreFixture | cc/src/components/atoms/consumptionRecords.ts:391-530 | the twenty department-store details give four full pages and a synthetic fifth |
| NegativePie.Keys | cc/src/components/modules/consumption/ConsumptionRecord.tsx:816-826 | the group keys have no duplicates |
| NegativePie.KeysMembers | cc/src/components/modules/consumption/ConsumptionRecord.tsx:816-826 | a name is a group key exactly when some detail has that category |
| NegativePie.OfCategoryMembers | cc/src/components/modules/consumption/ConsumptionRecord.tsx:817-822 | a group holds exactly the details of its category |
| NegativePie.Groups | cc/src/components/modules/consumption/ConsumptionRecord.tsx:826-839 | there is one group per key, in key order, each built from its own category |
| NegativePie.GroupsPartition | cc/src/components/modules/consumption/ConsumptionRecord.tsx:816-839 | the group sizes add up to the number of details and the group amounts to the total amount, so every detail is in exactly one group |
| NegativePie.DetailInItsGroup | cc/src/components/modules/consumption/ConsumptionRecord.tsx:816-822 | each detail is in the group named by its category and in no other |
| NegativePie.SortProperties | cc/src/components/modules/consumption/ConsumptionRecord.tsx:842 | the sort orders groups by descending absolute amount, is a permutation, and is stable: groups of equal magnitude keep their order |
| NegativePie.SortByMagnitude | cc/src/components/modules/consumption/ConsumptionRecord.tsx:842 | sorting keeps the number of groups |
| NegativePie.NegativePieShape | cc/src/components/modules/consumption/ConsumptionRecord.tsx:841-855 | the list is the groups sorted, a permutation of them, followed by the "更多" group |
| NegativePie.NegativePieCategories | cc/src/components/modules/consumption/ConsumptionRecord.tsx:841-855 | the list has one entry per category key plus a final "更多" group |
| NegativePie.NegativePieCoversDetails | cc/src/components/modules/consumption/ConsumptionRecord.tsx:826-855 | every detail's group is listed, and every listed group is collapsed and grey |
| RecordSummary.CeilThousand | cc/src/components/modules/consumption/ConsumptionRecord.tsx:752 | the result is the least multiple of 1000 at or above x, negative x included |
| RecordSummary.MaxAmount | cc/src/components/modules/consumption/ConsumptionRecord.tsx:749 | the result is an element of the series and no element exceeds it |
| RecordSummary.WithDefault | cc/src/components/modules/consumption/ConsumptionRecord.tsx:663-686 | an empty series is replaced by the sample series and a non-empty one is kept, so the result is never empty |
| RecordSummary.YAxisMax | cc/src/components/modules/consumption/ConsumptionRecord.tsx:747-752 | the axis top is a multiple of 1000, no point of either series is above it, and some point is within 1000 below it |
| RecordSummary.YAxisAtExactThousand | cc/src/components/modules/consumption/ConsumptionRecord.tsx:752 | a peak of exactly 8000 gives an axis top of 8000 |
| RecordSummary.YAxisRoundsUp | cc/src/components/modules/consumption/ConsumptionRecord.tsx:748-752 | a peak of 8001 in one series gives 9000 |
| RecordSummary.YAxisOfRefunds | cc/src/components/modules/consumption/ConsumptionRecord.tsx:749-752 | a series of refunds gives an axis top of -1000 |
| RecordSummary.StoreBreakdown | cc/src/components/modules/consumption/ConsumptionRecord.tsx:1119-1128 | there is one row per '、'-separated store name, and each row carries that name, the number of details whose store contains it, and the sum of their amounts |
| RecordSummary.MatchingMembers | cc/src/components/modules/consumption/ConsumptionRecord.tsx:1124-1126 | the matched details are exactly those whose store contains the name |
| RecordSummary.MatchingCount | cc/src/components/modules/consumption/ConsumptionRecord.tsx:1124-1126 | the filter keeps exactly one detail per position whose store contains the name |
| RecordSummary.BreakdownRows | cc/src/components/modules/consumption/ConsumptionRecord.tsx:1119-1128 | the row names joined with '、' give back the store name, and each row's count is the number of detail positions whose store contains its name, the counted details being exactly those |
| RecordSummary.EmptyNameCountsEverything | cc/src/components/modules/consumption/ConsumptionRecord.tsx:1119-1124 | a trailing '、' yields an empty name whose row counts and sums every detail |
| RecordSummary.OverlappingNamesCountTwice | cc/src/components/modules/consumption/ConsumptionRecord.tsx:1121-1127 | when one store name contains the other, a purchase at the longer store is counted in both rows |
| ChatResponse.ModuleTypeNamesDistinct | cc/src/services/mockApiService.ts:29-39 | distinct module types have distinct wire names |
| MockApi.FirstMatch | cc/src/services/mockApiService.ts:61-212 | the chosen rule applies and no earlier rule does; no rule is chosen exactly when none applies |
| MockApi.RuleKind | cc/src/services/mockApiService.ts:61-212 | the first ten rules answer with a consumption module and the last ten with an error |
| MockApi.MockChatFollowsFirstRule | cc/src/services/mockApiService.ts:61-221 | the reply is decided by the first applicable rule: a module rule gives success with its overview and no data; an error rule gives its code and message with neither overview nor data |
| MockApi.MockChat | cc/src/services/mockApiService.ts:56-221 | the reply carries data exactly when no rule applies, and a reply carrying a module is a success without data |
| MockApi.KeywordInLowered | cc/src/services/mockApiService.ts:61 | a keyword without ASCII letters occurs in the lower-cased input exactly when it occurs in the input |
| MockApi.ModuleKeywordsWin | cc/src/services/mockApiService.ts:61-212 | an input that satisfies any module rule gets a module, whatever error keywords it also holds |
| MockApi.NegativePieRoute | cc/src/services/mockApiService.ts:61-70 | "全負餅" gives success with the negative-pie record as a category module |
| MockApi.ChartBeatsTokenLimit | cc/src/services/mockApiService.ts:81-192 | an input holding both "上限" and "一線", and neither earlier keyword, gets the chart module, not the token-limit error |
| MockApi.ConsumptionCategoryNeverMultipleCategories | cc/src/services/mockApiService.ts:121-207 | an input naming "消費類別" never gets '009', because a module answers it first |
| MockApi.StoreLimitNeedsBoth | cc/src/services/mockApiService.ts:198-202 | a '008' reply implies that the input holds both "特店" and "超過" |
| MockApi.ErrorRepliesAreBare | cc/src/services/mockApiService.ts:163-212 | a reply other than success carries no overview and no data, and its code is one of the ten error codes |
| MockApi.DefaultEchoesInput | cc/src/services/mockApiService.ts:213-221 | with no rule applying, the reply is success with the input quoted between 「」 as its response |
| MockApi.MockCodeMessage | cc/src/services/mockApiService.ts:228-254 | the mock table gives non-empty text for every code, and the "unrecognised code" text exactly to codes that are neither errors nor '200' |
| MockApi.MockCodeMessageCases | cc/src/services/mockApiService.ts:228-254 | '004' and '005' read the same, '200' reads as success, and the "unrecognised code" text is given exactly to codes that are neither errors nor '200' |
| ApiService.CodeMessageCases | cc/src/services/apiService.ts:260-286 | the text is non-empty exactly for the ten error codes, and '004' and '005' share theirs |
| ApiService.CodeMessage | cc/src/services/apiService.ts:260-286 | the table gives non-empty text exactly for the ten error codes |
| ApiService.TablesAgreeOnErrors | cc/src/services/apiService.ts:260-286 | the real and mock tables agree on every error code; on every other code the real table is empty and the mock table is not |
| ApiService.TidFrom | cc/src/services/apiService.ts:166 | the search finds nothing exactly when no position matches; otherwise the capture belongs to the leftmost match and is a non-empty run of letters and digits |
| ApiService.TidAtEitherCase | cc/src/services/apiService.ts:166 | a match is t, i and d, each in either case, followed by an ASCII letter or digit |
| ApiService.ExtractTid | cc/src/services/apiService.ts:166-172 | the tid is null exactly when no "tid" is followed by a letter or digit; otherwise it is a non-empty run of letters and digits |
| ApiService.TidFromLeftmost | cc/src/services/apiService.ts:166 | the capture is the maximal letter-and-digit run after the leftmost match |
| ApiService.ExtractTidStopsAtPunctuation | cc/src/services/apiService.ts:166 | "TID" in upper case matches, and the capture stops at the first punctuation mark |
| ApiService.RequestBody | cc/src/services/apiService.ts:168-174 | the request carries the input and the session id, is not a default question, and has a tid exactly when the input holds a match |
| ApiService.Normalise | cc/src/services/apiService.ts:186-200 | a falsy code becomes '200' and a falsy message the success text; the other fields are copied unchanged |
| ApiService.NormaliseIdempotent | cc/src/services/apiService.ts:186-188 | a normalised reply has a non-empty code and message, and normalising it again changes nothing |
| ApiService.RememberRequestId | cc/src/services/apiService.ts:181-183 | the remembered id is replaced by a truthy request id and otherwise kept |
| ApiService.RequestIdSurvivesBareReplies | cc/src/services/apiService.ts:181-183 | any number of replies without a request id leave the remembered id unchanged |
| ApiService.DeviceString | cc/src/services/apiService.ts:148-149 | the string is the first half, a comma, then the second half |
| ApiService.DeviceStringSplits | cc/src/services/apiService.ts:148-149 | when neither half holds a comma, splitting at ',' gives the pair back |
| Dialog.IntroEntries | cs/src/components/utils/SystemResponse.ts:212-265 | two entries, a user question then a system reply sharing one question id and marked as introduction, exactly when the introduction object has both texts truthy; otherwise none |
| Dialog.IntroStringAddsNothing | cs/src/components/utils/SystemResponse.ts:225-244 | a bare introduction string never adds an entry |
| Dialog.AddUserMessage | cs/src/components/utils/SystemResponse.ts:385-392 | exactly one user entry with the given text is appended, under the truthy given id or else a fresh one, and earlier entries are untouched |
| Dialog.AddUserMessagesKeepOrder | cc/src/components/utils/SystemResponse.ts:233-240 | two user messages in a row are appended in order, leaving the earlier history untouched |
| Dialog.TokenLimitHistory | cs/src/components/utils/SystemResponse.ts:120-141 | the history is one system entry offering the way out, with the truthy custom message or else the token-limit text |
| CsDialog.StartOption | cs/src/components/utils/SystemResponse.ts:272-298 | a click is ignored exactly while loading; otherwise loading starts, the option is selected, the question id is the truthy existing id or a fresh one, and a user entry is added exactly when no existing id is given |
| CsDialog.ReplyEntry | cs/src/components/utils/SystemResponse.ts:309-355 | a truthy generated text gives the error message or the generated text, feedback exactly for type "200", and deeplink and suggestions only when present; otherwise the data response or the code's text, no card, and the way-out button exactly for '006' |
| CsDialog.CompleteOption | cs/src/components/utils/SystemResponse.ts:302-381 | loading ends and exactly one system entry with the question id is appended; a failed request gets the '001' text |
| CsDialog.OptionCycle | cs/src/components/utils/SystemResponse.ts:272-381 | a whole click from an idle dialog appends the user entry (unless an id was given) and then one system entry with the same id, and ends loading |
| CsDialog.OneRequestAtATime | cs/src/components/utils/SystemResponse.ts:274-280 | while a request is in flight a second click is ignored |
| CsDialog.TokenLimit | cs/src/components/utils/SystemResponse.ts:120-141 | the history becomes the token-limit screen and the selection names it; the input, loading and record flags are kept |
| CsDialog.IdleTimeout | cs/src/components/utils/SystemResponse.ts:144-158 | the history becomes one idle-timeout entry, the input is cleared and the idle flag raised; the other flags are kept |
| CsDialog.FrontendError | cs/src/components/utils/SystemResponse.ts:161-175 | the history becomes one front-end-error entry, the input is cleared and the error flag raised; the other flags are kept |
| CsDialog.Retry | cs/src/components/utils/SystemResponse.ts:182-187 | the selection and both error flags are cleared, and the history and input are kept |
| CsDialog.RetryLeavesErrorScreens | cs/src/components/utils/SystemResponse.ts:144-187 | either error screen followed by a retry leaves no error screen showing and keeps the error entry |
| CsDialog.Close | cs/src/components/utils/SystemResponse.ts:189-193 | the selection and input are cleared and the record is hidden, and the history is kept |
| CsDialog.ToggleDetails | cs/src/components/utils/SystemResponse.ts:178-180 | the record flag is negated and the history is kept |
| CsDialog.ToggleDetailsTwice | cs/src/components/utils/SystemResponse.ts:178-180 | toggling twice is the identity |
| CsDialog.Reset | cs/src/components/utils/SystemResponse.ts:196-209 | the history, selection and input are emptied, and the record and introduction are hidden |
| CsDialog.ResetForgetsConversation | cs/src/components/utils/SystemResponse.ts:196-209 | reset is idempotent, and two dialogs that agree on loading, introduction and error flags are equal after a reset |
| CsDialog.IntroOption | cs/src/components/utils/SystemResponse.ts:212-265 | the history grows by the two introduction entries when both texts are truthy, and otherwise the dialog is unchanged |
| CsDialog.UserMessage | cs/src/components/utils/SystemResponse.ts:385-392 | one user entry is appended and earlier entries are untouched |
| CcDialog.TokenLimit | cc/src/components/utils/SystemResponse.ts:102-122 | the history is one system entry with the way out, holding the truthy custom message or else the service's non-empty '006' text |
| CcDialog.TokenLimitForgetsHistory | cc/src/components/utils/SystemResponse.ts:102-122 | the token-limit screen does not depend on the earlier history |
| CcDialog.IdleTimeout | cc/src/components/utils/SystemResponse.ts:125-139 | the history becomes one idle-timeout entry, the input is cleared and the idle flag raised |
| CcDialog.FrontendError | cc/src/components/utils/SystemResponse.ts:142-156 | the history becomes one front-end-error entry, the input is cleared and the error flag raised |
| CcDialog.ErrorScreensIdempotent | cc/src/components/utils/SystemResponse.ts:125-156 | showing an error screen twice is showing it once |
| CcDialog.ToggleDetails | cc/src/components/utils/SystemResponse.ts:159-161 | the record flag is negated and the history is kept |
| CcDialog.ToggleDetailsTwice | cc/src/components/utils/SystemResponse.ts:159-161 | toggling twice is the identity |
| CcDialog.Reset | cc/src/components/utils/SystemResponse.ts:164-171 | the history and input are emptied and the record is hidden; the error flags are kept |
| CcDialog.ResetKeepsErrorScreen | cc/src/components/utils/SystemResponse.ts:164-171 | a reset after the idle screen keeps its flag raised, and reset is idempotent |
| CcDialog.IntroOption | cc/src/components/utils/SystemResponse.ts:174-226 | the history grows by the two introduction entries when both texts are truthy, and otherwise the dialog is unchanged |
| CcDialog.UserMessage | cc/src/components/utils/SystemResponse.ts:233-240 | exactly one user entry with the text is appended at the end, and earlier entries are untouched |
| PieChart.MakeColorTransparent | cc/src/components/charts/VariablePieChart.tsx:34-43 | a colour not starting with '#' is returned unchanged |
| PieChart.ChannelOfDigits | cc/src/components/charts/VariablePieChart.tsx:37-39 | two hex digits print as the byte they write |
| PieChart.TransparentSixDigits | cc/src/components/charts/VariablePieChart.tsx:34-43 | "#RRGGBB" becomes rgba of its three decoded bytes and the opacity |
| PieChart.TransparentRoundTrip | cc/src/components/charts/VariablePieChart.tsx:34-43 | writing three bytes as "#RRGGBB" and fading the colour gives back exactly those bytes |
| PieChart.PaletteFades | cc/src/components/charts/VariablePieChart.tsx:24-43 | the first palette colour fades to rgba(29, 156, 88, 0.3) |
| PieChart.ShortColorIsMisread | cc/src/components/charts/VariablePieChart.tsx:36-40 | "#RGB" reads as the byte RG, the single digit B and NaN |
| PieChart.Visible | cc/src/components/charts/VariablePieChart.tsx:61-63 | a negative pie keeps every category, and no filter adds categories |
| PieChart.VisibleMembers | cc/src/components/charts/VariablePieChart.tsx:61-63 | outside a negative pie, a category becomes a slice exactly when its amount is positive |
| PieChart.AllPositiveKept | cc/src/components/charts/VariablePieChart.tsx:61-63 | when every amount is positive, nothing is dropped |
| PieChart.SliceColor | cc/src/components/charts/VariablePieChart.tsx:74-76 | a negative pie with a truthy single colour uses it, and otherwise the colour comes from the palette |
| PieChart.PaletteCycles | cc/src/components/charts/VariablePieChart.tsx:74-76 | slices six apart share a colour, and neighbouring slices never do |
| PieChart.Slices | cc/src/components/charts/VariablePieChart.tsx:57-92 | no chart exactly when no category survives the filter; otherwise one slice per surviving category, in order, with its name and amount, z 76, its colour and its index |
| PieChart.NegativePieChart | cc/src/components/charts/VariablePieChart.tsx:57-92 | the negative pie's single "更多" category becomes one grey slice |
| PieChart.LabelLines | cc/src/components/charts/VariablePieChart.tsx:129-146 | a small slice has no label; a name of at most 7 characters is one line; a longer name is 7 characters and then the rest |
| PieChart.LabelKeepsName | cc/src/components/charts/VariablePieChart.tsx:138-146 | the label lines put together are the name |
| PieChart.Restyle | cc/src/components/charts/VariablePieChart.tsx:200-224 | one style per point; with a selection, the selected point is enlarged (z 85) in its remembered colour and every other point is small (z 76) and faded to 0.3; without one, every point is small in its remembered colour |
| PieChart.RestyleEnlargesAtMostOne | cc/src/components/charts/VariablePieChart.tsx:200-224 | exactly one point is enlarged when the selection names a point, and none otherwise |
| PieChart.DeselectRestoresInitial | cc/src/components/charts/VariablePieChart.tsx:217-223 | with no selection or -1, every slice returns to its initial z and colour |
| PieChart.ClickTarget | cc/src/components/charts/VariablePieChart.tsx:164-167 | a click is forwarded, with the slice's own index, exactly when a handler is given and the chart is not a negative pie |
| PieChart.ClickIndexMatchesCategory | cc/src/components/charts/VariablePieChart.tsx:61-89 | when every amount is positive, the forwarded index names the clicked category in the caller's list |
| PieChart.ClickIndexShiftsPastDroppedCategory | cc/src/components/charts/VariablePieChart.tsx:61-89 | with a dropped zero-amount category first, clicking the first slice forwards the dropped category's index |
| LineChart.ContainerWidth | cc/src/components/charts/LineChart.tsx:53-54 | the width is in [300, 400]: the parent width (or the initial width when the parent reports nothing or 0) when in range, else the nearer bound |
| LineChart.ContainerWidthStable | cc/src/components/charts/LineChart.tsx:53-54 | clamping a clamped width changes nothing, and a wider parent never gives a narrower chart |
| LineChart.MobilePosition | cc/src/components/charts/LineChart.tsx:173-191 | y is -6; the label ends at the point if centring would cross the right edge, else starts at the point if it would cross the left edge, else is centred |
| LineChart.TooltipStaysInPlot | cc/src/components/charts/LineChart.tsx:176-185 | for a point inside the plot and a label at most two thirds of the plot width, the tooltip lies inside the plot and covers the point |
| LineChart.WideLabelEndsAtPoint | cc/src/components/charts/LineChart.tsx:182-183 | a label wider than twice the plot always ends at the point: the right-edge rule comes first |
| LineChart.FormatDate | cc/src/components/charts/LineChart.tsx:166-171 | the text has at least 7 characters, with slashes before the two-digit month and day |
| LineChart.FormatDateReadsBack | cc/src/components/charts/LineChart.tsx:166-171 | splitting at '/' gives three digit fields, the last two two characters long, that read back as the year, the month counted from 1, and the day |
| LineChart.FirstPeakUnique | cc/src/components/charts/LineChart.tsx:110-111 | a series has only one first-peak value and index |
| LineChart.MaxIndex | cc/src/components/charts/LineChart.tsx:110-111 | the result is the largest value and the first index holding it |
| LineChart.ComparePeak | cc/src/components/charts/LineChart.tsx:113-120 | without comparison data the peak is 0 at index -1; otherwise it is the first peak of that series |
| LineChart.HighlightOf | cc/src/components/charts/LineChart.tsx:369-382 | never both peaks, neither on a tie, and the comparison peak only when there is comparison data |
| LineChart.Peaks | cc/src/components/charts/LineChart.tsx:109-120 | both first peaks are found; a series is highlighted exactly when its peak is strictly above the other's, 0 standing in for missing comparison data |
| LineChart.NoCompareNeedsPositivePeak | cc/src/components/charts/LineChart.tsx:369-374 | without comparison data, a series that is never positive gets no highlight |
| LineChart.AxisLabelStyle | cc/src/components/charts/LineChart.tsx:221-228 | the style is the bare ";" exactly for a label that is neither first nor last |
| LineChart.AxisLabelMargins | cc/src/components/charts/LineChart.tsx:221-226 | the right margin goes exactly to the last label, even when it is also first; the left margin goes exactly to a first label that is not last |

## Left out

- Every category pagination entry stores `itemsPerPage: 5` and is only ever copied, so the model keeps the current page and uses the constant 5.
- JSX markup, CSS classes, animations and icons are left out; the model keeps only what the markup decides: which block renders, its height, and which arrow is enabled.
- Highcharts is a foreign library. Chart construction, point updates, tooltip refreshes, the ResizeObserver and resize listeners are left out; only the values handed to the library are modelled.
- The aspect-ratio height of the line chart (LineChart.tsx:82-83) and every floating-point percentage are left out. Negative-pie percentages stay symbolic as `Ratio(part, whole)`, and the pie's `isLowPercentage` flag is a parameter of `PieChart.LabelLines`.
- Chart values are integers, where the source uses JavaScript numbers.
- The fade opacity is kept as its printed text, because it is only ever interpolated into the colour string.
- The string functions are simplified:
  - `toLowerCase` is ASCII-only;
  - string length counts characters, not UTF-16 code units;
  - `Object.keys` order is first-occurrence order, which is what it is for keys that do not look like integers.
- JavaScript `Date` handling is left out: parsing, sorting by date, and `getFullYear`/`getMonth`/`getDate`. The date's year, zero-based month and day are inputs of `LineChart.FormatDate`. `toLocaleString` currency formatting is left out.
- I/O and asynchrony are left out: axios calls, promises, timers (the mock's 3-second delay), `document.dispatchEvent` and console logging. The request outcome is a parameter (`CsDialog.Outcome`), and `Date.now()` question ids are inputs.
- The extended system-response texts used by the idle-timeout and front-end-error screens are not part of this model. Those texts are parameters.
- `cs/src/services/apiService.ts` is not part of this model. The customer-service hook's code-to-text table is the parameter `codeText`.
- The customer-service reset also clears `consumptionType`, and both hooks have `startLoading`, `resetLoading`, input-change and greeting setters. These plain field setters are left out.
- RecordSummary.YAxisMax: requires a non-empty first series. The source always substitutes its sample series for an empty one first, and that substitution is `RecordSummary.WithDefault`.
- LineChart.MaxIndex: requires non-empty data, because the source only computes peaks when `data.length > 0` (LineChart.tsx:96).
- LineChart.Peaks: requires non-empty main data, for the same reason.
- The unused `typeMatch` (apiService.ts:165) and the unused pagination flags `showFirstLast` and `alwaysShowPrevNext` are left out.
- The static fixture records are not modelled as data. Their list lengths appear in `DetailList.FixtureSizes` and `CategoryList.DepartmentStoreFixture`.
