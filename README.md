# Paginated animal lists of the PawPatrol front end

This project models the state changes behind two listing pages of a pet-rescue web client.

- **Protection list** (`src/pages/Protection/index.jsx`): the public list of animals waiting for temporary protection, loaded ten at a time by infinite scroll. Every page after the first is merged into the list after dropping the incoming cases whose `animalCaseId` is already listed.
- **My registered animals** (`src/pages/MyRegisterAnimals/index.jsx`): the owner's own cases. Pages are appended with no deduplication. The page keeps counts of the cases waiting for protection (`PROTECT_WAITING`) and under temporary protection (`TEMP_PROTECTING`). Its owner can approve or reject pending applications. A successful decision resets pagination so the list is loaded again from page 0.

Each page is a class whose fields are the page's React state cells: `animals`, `page`, `hasMore`, `loading`, the total, and for the second page the counts and the modal state. The methods are the handlers. Each handler takes the awaited outcome of its request as a parameter: `Listing.ListResponse` for listings, `MyRegisterAnimals.ActionResponse` for decisions. An outcome is either an HTTP reply (status, result code, body) or a thrown exception. The merge, the counts and the `hasMore` rule are pure functions. Lemmas state their properties.

Files:
- `listing.dfy`: module `Listing`, holding the case record, the response envelope, the page size (10), and the rule for whether a reply is acted on and whether more pages remain.
- `protection.dfy`: module `Protection`, holding the id-deduplicating merge, its lemmas, and the `ProtectionPage` class.
- `my_register_animals.dfy`: module `MyRegisterAnimals`, holding the status counts, their lemmas, and the `MyRegisteredAnimalsPage` class with the approve and reject handlers.

Three behaviours of the code worth knowing:
- **Reject reason.** Only a cancelled prompt (`null`) stops a reject. An empty reason is still sent.
- **Page size rule.** A page counts as last when it is marked last or has fewer than 10 items. A page of 10 or more items that is not marked last keeps pagination going.
- **Duplicate ids.** The list is duplicate-free only if every incoming page is duplicate-free, because the filter compares only against the old list (`DuplicatesWithinOnePageSurvive`). Page 0 replaces the list without any filter.

Assumptions:
- Each fetch is applied in one step, with no other state update in between. So the `animals` captured when a fetch starts, which `src/pages/MyRegisterAnimals/index.jsx:71` uses for the counts, is the current list.
- `fetchPending` stands for React's effect on `[page]`. It becomes true when the component mounts and whenever `page` takes a new value. Running the fetch effect clears it. The decision handlers use the corrected reset described under "## Findings", which also makes it true when `page` was already 0.

## Model

| member | source | states |
|---|---|---|
| Listing.HasMoreExamples | src/pages/MyRegisterAnimals/index.jsx:61-62 | 10 items with `last = false` keep pagination going; 3 items with `last = true` stop it, and so do a short page and a last full page |
| Protection.Ids | src/pages/Protection/index.jsx:47 | the id list has one entry per case, in list order, and each entry is that case's `animalCaseId` |
| Protection.FreshItems | src/pages/Protection/index.jsx:48-50 | a case is kept exactly when it is in the incoming page and its id is not among the existing ids; the result is no longer than the page |
| Protection.MergePage | src/pages/Protection/index.jsx:46-52 | the old list is a prefix of the merged list; the suffix holds exactly the incoming cases with unlisted ids; the merged length is the old length plus the number of incoming positions whose id is unlisted, so it lies between the old length and old + incoming |
| Protection.FreshItemsInOrder | src/pages/Protection/index.jsx:48-51 | the kept cases are a subsequence of the incoming page, so the server's relative order is preserved |
| Protection.FreshItemsMultiplicity | src/pages/Protection/index.jsx:48-50 | each case with an unlisted id is kept as many times as it occurs in the page; a case with a listed id is not kept at all |
| Protection.FreshItemsSplit | src/pages/Protection/index.jsx:48-50 | filtering a page cut in two gives the two filtered parts, one after the other |
| Protection.FreshItemsCount | src/pages/Protection/index.jsx:48-50 | the number of kept cases equals the number of page positions whose id is not among the existing ids |
| Protection.MergeSuffixMultiplicity | src/pages/Protection/index.jsx:46-52 | the appended suffix holds every occurrence of each incoming case with an unlisted id, and no other case |
| Protection.MergeAppendsFreshInOrder | src/pages/Protection/index.jsx:46-52 | the merged list is the old list followed by the fresh cases, and that suffix is in server order |
| Protection.FreshItemsDistinct | src/pages/Protection/index.jsx:48-50 | filtering a page with distinct ids yields distinct ids |
| Protection.MergeKeepsIdsDistinct | src/pages/Protection/index.jsx:46-52 | if the old list and the incoming page each have distinct ids, so does the merged list |
| Protection.DuplicatesWithinOnePageSurvive | src/pages/Protection/index.jsx:47-51 | two cases with one id in the same page are both kept: merging them into an empty list yields both, so the ids are not distinct |
| Protection.FreshItemsAllNew | src/pages/Protection/index.jsx:48-50 | when no incoming id is listed, the filter keeps the whole page |
| Protection.MergeDisjointAppends | src/pages/Protection/index.jsx:46-52 | with disjoint ids the merge is plain concatenation and the length is the sum |
| Protection.FreshItemsAllKnown | src/pages/Protection/index.jsx:48-50 | when every incoming id is listed, the filter keeps nothing |
| Protection.MergeKnownIsIdentity | src/pages/Protection/index.jsx:46-52 | merging a page whose ids are all listed leaves the list unchanged |
| Protection.MergeAll | src/pages/Protection/index.jsx:46-52 | merging a run of pages never shortens the list |
| Protection.DisjointPagesAccumulate | src/pages/Protection/index.jsx:46-52 | when no page brings an id that is already listed or came with an earlier page, every page is appended whole, repeats inside a page included; after N pages the list has grown by the sum of their lengths |
| Protection.ProtectionPage.constructor | src/pages/Protection/index.jsx:9-13 | the page starts with an empty list at page 0, not loading, a total of 0 and more to load |
| Protection.ProtectionPage.FetchAnimals | src/pages/Protection/index.jsx:17-68 | sends the current page with size 10. An error status, a result code other than "200", an exception or a body without content (reading its first item throws) leaves list, `hasMore` and total unchanged. An empty page only clears `hasMore`. Otherwise page 0 replaces the list, a later page is merged with `MergePage`, and the total is the reply's `totalElements`. For every delivered page, `hasMore` is true exactly when the page is not marked last and holds at least 10 items. `page` is unchanged and `loading` is false in every outcome |
| Protection.ProtectionPage.LoadMore | src/pages/Protection/index.jsx:153 | the page index grows by exactly 1 |
| Protection.TwoPageScenario | src/pages/Protection/index.jsx:43-59 | 10 cases with `last = false`, then 3 more with `last = true` whose ids are not among the first 10, leave 13 cases listed and pagination stopped |
| MyRegisterAnimals.CountStatus | src/pages/MyRegisterAnimals/index.jsx:84-85 | the number of cases with a given status never exceeds the list length |
| MyRegisterAnimals.CountStatusIsMultiplicity | src/pages/MyRegisterAnimals/index.jsx:84-85 | the count equals the multiplicity of the status in the multiset of the list's statuses |
| MyRegisterAnimals.CountStatusAppend | src/pages/MyRegisterAnimals/index.jsx:71 | counting over the list followed by a page is the list's count plus the page's count |
| MyRegisterAnimals.TwoStatusesFit | src/pages/MyRegisterAnimals/index.jsx:84-85 | the counts of two different statuses add up to at most the list length |
| MyRegisterAnimals.WaitingAndProtectingFit | src/pages/MyRegisterAnimals/index.jsx:84-88 | the waiting and protecting counts add up to at most the list length |
| MyRegisterAnimals.MyRegisteredAnimalsPage.constructor | src/pages/MyRegisterAnimals/index.jsx:10-19 | the page starts empty at page 0, loading, with more to load, no selection, the modal closed, all counts 0, and the fetch effect due to run |
| MyRegisterAnimals.MyRegisteredAnimalsPage.CalculateStatusCounts | src/pages/MyRegisterAnimals/index.jsx:83-89 | the waiting and protecting counts become the counts over the given list, and their sum is at most its length |
| MyRegisterAnimals.MyRegisteredAnimalsPage.FetchMyRegisteredAnimals | src/pages/MyRegisterAnimals/index.jsx:27-80 | sends the current page with size 10. An error status, a result code other than "200" or an exception changes nothing but `loading`. An empty or absent content only clears `hasMore`. Otherwise page 0 replaces the list and a later page is appended whole with no deduplication, the total is `totalElements` or 0, and the counts describe the new list. For every delivered page, `hasMore` is true exactly when the page is not marked last and holds at least 10 items. On a later page, counts that described the old list grow by the page's own counts. Counts that matched stay matched. `loading` ends false |
| MyRegisterAnimals.MyRegisteredAnimalsPage.LoadMore | src/pages/MyRegisterAnimals/index.jsx:339 | the page index grows by exactly 1, which makes the fetch effect due |
| MyRegisterAnimals.MyRegisteredAnimalsPage.OpenApplicationsModal | src/pages/MyRegisterAnimals/index.jsx:116-120 | a click on a case's badge opens the modal for that case exactly when the case has pending applications (the badge guard at `src/pages/MyRegisterAnimals/index.jsx:226`); otherwise selection and modal are unchanged |
| MyRegisterAnimals.MyRegisteredAnimalsPage.CloseApplicationsModal | src/pages/MyRegisterAnimals/index.jsx:351 | the modal closes |
| MyRegisterAnimals.MyRegisteredAnimalsPage.ResetPaginationAsWritten | src/pages/MyRegisterAnimals/index.jsx:142-145 | page 0, empty list, more to load, modal closed, counts and total untouched; a fetch becomes due only if the page index was not already 0 (effect at lines 92-94) |
| MyRegisterAnimals.MyRegisteredAnimalsPage.ResetPagination | src/pages/MyRegisterAnimals/index.jsx:142-145 | the same reset, with a fetch of page 0 always due |
| MyRegisterAnimals.MyRegisteredAnimalsPage.HandleApproveProtection | src/pages/MyRegisterAnimals/index.jsx:123-156 | an accept request is sent for the id. The handler succeeds exactly when the reply is HTTP 200 with result code "200"; then pagination is reset and the modal closed. On any failure no field changes |
| MyRegisterAnimals.MyRegisteredAnimalsPage.HandleRejectProtection | src/pages/MyRegisterAnimals/index.jsx:159-197 | a cancelled prompt sends nothing and changes nothing. Any other reason, the empty one included, is sent in a reject request. Success and failure then behave as for approve |
| MyRegisterAnimals.ApproveOnFirstPageStrandsEmptyList | src/pages/MyRegisterAnimals/index.jsx:92-94 | as written, approving after page 0 has loaded one case leaves an empty list, a stale total of 1 and no fetch due |
| MyRegisterAnimals.ApproveOnFirstPageRefetches | src/pages/MyRegisterAnimals/index.jsx:138-145 | with the corrected reset, the same approval leaves a fetch of page 0 due |

## Findings

| source | as written | input that shows it | evidently intended | confidence | as-written member | corrected member |
|---|---|---|---|---|---|---|
| src/pages/MyRegisterAnimals/index.jsx:142-145 with 92-94 | after a successful decision the handler calls `setPage(0)` and empties the list. The only trigger for a refetch is the effect on `[page]`, which does not run when `page` is already 0 | approve or reject while the first page is showing (`page == 0`) | pagination restarts and page 0 is fetched again whatever page was showing | not executed; follows from React running an effect only when a dependency changes | MyRegisterAnimals.MyRegisteredAnimalsPage.ResetPaginationAsWritten (shown by MyRegisterAnimals.ApproveOnFirstPageStrandsEmptyList) | MyRegisterAnimals.MyRegisteredAnimalsPage.ResetPagination (used by both handlers; shown by MyRegisterAnimals.ApproveOnFirstPageRefetches) |

## Left out

- Rendering is not modelled: JSX, the badges of `getProtectionTypeBadge`, `StatusBadge`, date formatting and the menu of the protection page (`isMenuOpen`) are presentation only.
- `InfiniteScroll` and `ApplicationsModal` are not part of this model, so when `loadMore` is called and any at-most-one-in-flight guard are not captured. `LoadMore` can be called in any state.
- The HTTP requests, URLs, credentials and headers are not modelled. A fetch returns the query it sends (page and size), a decision returns the request it sends, and the reply is a parameter.
- The browser calls `alert`, `prompt`, `console.log`, `window.scrollTo` and `navigate` are not modelled. The prompt's result is the `reason` parameter, and the alert text (including the server's `message`) is not modelled.
- Interleaving of overlapping fetches, and the async gap during which `loading` is true, are not modelled. Each fetch is one step that sets `loading` and clears it again.
- Protection.ProtectionPage.FetchAnimals: a reply whose `data` object itself is missing is not modelled; the envelope always carries one.
- Only `animalCaseId`, `caseStatus` and `pendingApplicationsCount` of a case are modelled. The applications the modal lists (`pendingProtections`, `src/pages/MyRegisterAnimals/index.jsx:352`) are not, because the modal component is not part of this model. The other fields are only displayed.
- MyRegisterAnimals.MyRegisteredAnimalsPage.HandleApproveProtection, MyRegisterAnimals.MyRegisteredAnimalsPage.HandleRejectProtection: both use the corrected reset `ResetPagination`. So after a success on page 0 they promise a fetch of page 0 that the code as written does not schedule. The code as written is `ResetPaginationAsWritten` (see "## Findings").
- `src/layout/Footer.jsx` and `src/layout/Layout.jsx` hold navigation and layout markup only.
