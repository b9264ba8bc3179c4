# car-souq: a Dafny model of the application logic

car-souq ("سوق السيارات") is a React and TypeScript front end for a car
marketplace. Visitors browse listings grouped by category, search them with a
multi-criteria filter, follow carousel ads and contact the seller on WhatsApp.
An administrator logs in with fixed credentials, edits cars through a multipart
form, and manages and reorders the carousel ads.

This project models the logic under the views and proves properties of it:

- the catalog filter of the search page;
- the category grouping of the home page;
- the carousel ad list: a stable sort by position, the next position, delete, toggle, move up and move down;
- the public carousel's active-ad selection, slide arithmetic and link classification;
- the car form's list edits, its normalisation of a loaded car and the multipart body it submits;
- the pull-to-refresh gesture;
- the REST client's headers, response classification and storage effects;
- the three Redux slices;
- the admin session flag, the navigation bar and the home-screen prompt;
- WhatsApp number cleaning and link assembly.

Local storage is a class over `map<string, string>` (`Storage.LocalStorage`).
A network response, a timer firing, a scroll test or a confirmation dialog's
answer is an input of the operation that uses it. Code that updates state in
place is modelled as a class with methods, and each method's new state is tied
to a function on values. The in-place sort is a method on an `array`. Loops are
methods with invariants: the home grouping, the form body builder and the list
copies. A pure expression is a function, and the promised properties are lemmas
about these functions.

Modules, one per source file, plus shared helpers:

| module | file | models |
|---|---|---|
| CatalogFilter | filter.dfy | src/pages/Filter.tsx |
| Home | home.dfy | src/pages/Home.tsx |
| Ads | ads.dfy | the ad record and its position sort (shared by both carousel files) |
| AdminCarouselAds | admin_carousel_ads.dfy | src/pages/AdminCarouselAds.tsx |
| HeroCarousel | hero_carousel.dfy | src/components/HeroCarousel.tsx |
| AdminCarForm | admin_car_form.dfy | src/pages/AdminCarForm.tsx |
| PullToRefresh | pull_to_refresh.dfy | src/hooks/usePullToRefresh.ts |
| Api | api.dfy | api.ts |
| CarsSlice, AuthSlice, MainSlice, AsyncStatus | cars_slice.dfy, auth_slice.dfy, main_slice.dfy, async_status.dfy | the Redux slices |
| AdminSession, AdminLogin, Layout, App | session.dfy, admin_login.dfy, layout.dfy, app.dfy | the admin flag, src/pages/AdminLogin.tsx, src/components/Layout.tsx, src/App.tsx |
| WhatsApp | whatsapp.dfy | src/components/WhatsAppButton.tsx, src/lib/whatsappConfig.ts |
| Wrappers, Seqs, Text, Js, Storage, Forms | wrappers.dfy, seqs.dfy, text.dfy, js.dfy, storage.dfy, forms.dfy | Option; `Array.prototype.filter`; ASCII case folding, `includes`, `startsWith`, decimal text; JavaScript values and truthiness; `localStorage`; `FormData` |

The move-up handler does not do what its own comments say. The comments at
src/pages/AdminCarouselAds.tsx:134 and :137 say the two ads' `order_position`
values are to be swapped, and `handleMoveDown` does swap them, once, at lines
175-177. The move-up code swaps the two array slots and then exchanges the
positions twice, so the exchanges cancel. The model follows the code and
records the discrepancy under "## Findings".

## Model

| member | source | states |
|---|---|---|
| CatalogFilter.Prices | src/pages/Filter.tsx:48-53 | at most four prices are collected, and a value is among them exactly when one of the four price fields holds it (null and undefined are dropped) |
| CatalogFilter.FilterCarsIsStableSelection | src/pages/Filter.tsx:26-64 | the shown cars are a subsequence of the input; a car is shown iff it is in the input and passes all five stages; each matching car keeps its multiplicity and no other car appears |
| CatalogFilter.NameCriterion | src/pages/Filter.tsx:28 | a non-empty name keeps, of what the other criteria select, exactly the cars whose lower-cased title contains the lower-cased name, in order |
| CatalogFilter.CategoryCriterion | src/pages/Filter.tsx:31-36 | a non-empty category keeps exactly the cars whose present, non-empty type or model contains it after lower-casing |
| CatalogFilter.YearCriterion | src/pages/Filter.tsx:38 | a year keeps exactly the cars with that manufacture year |
| CatalogFilter.SaleModeExcludesExactlyRent | src/pages/Filter.tsx:41-45 | mode 'sale' removes exactly the 'rent' cars from what the other criteria select |
| CatalogFilter.RentModeExcludesExactlySale | src/pages/Filter.tsx:41-45 | mode 'rent' removes exactly the 'sale' cars from what the other criteria select |
| CatalogFilter.BothModeExcludesNothing | src/pages/Filter.tsx:41 | mode 'both' selects the same cars as an empty mode |
| CatalogFilter.BothCarsSurviveAnyMode | src/pages/Filter.tsx:41-45 | a car listed as 'both' is shown under any mode iff it is shown with no mode |
| CatalogFilter.UnpricedCarsIgnorePriceRange | src/pages/Filter.tsx:55 | on cars with no price at all, changing the minimum and maximum changes nothing |
| CatalogFilter.PriceInRangeIsShown | src/pages/Filter.tsx:57-63 | a car that passes the other stages and has some price p with min ≤ p ≤ max (min 0 and max unbounded when empty) is shown |
| CatalogFilter.ShownPricedCarsHavePriceInRange | src/pages/Filter.tsx:57-61 | every shown car that has a price has one inside the range |
| CatalogFilter.Reset | src/pages/Filter.tsx:147-154 | after the reset the name and category are '' and the year, mode and both prices are empty, so a car matches exactly when it has no price or a price ≥ 0 |
| CatalogFilter.ResetShowsEveryCar | src/pages/Filter.tsx:57-61 | with all criteria empty and every price ≥ 0, the output equals the input |
| CatalogFilter.RentScenario | src/pages/Filter.tsx:44 | mode 'rent' over a sale car and a rent car shows only the rent car |
| CatalogFilter.MonthlyPriceScenario | src/pages/Filter.tsx:48-60 | a car priced only monthly at 150 passes the range [100, 200] |
| Home.GroupByCategory | src/pages/Home.tsx:14-23 | the `forEach` loop throws a TypeError exactly when some car's category names a property inherited from `Object.prototype` (such as 'constructor'); otherwise it builds exactly the reference grouping: one key per category present, each holding that category's cars in list order |
| Home.AddToGroup | src/pages/Home.tsx:17-20 | one iteration throws exactly when the category has no group of its own and names an inherited property; otherwise it creates the group on first sight of the category and appends the car to it, leaving every other group alone |
| Home.GroupingSnoc | src/pages/Home.tsx:16-21 | one more car extends its own group (created when the category is new), and every other group is unchanged |
| Home.EveryCarInItsOwnGroup | src/pages/Home.tsx:16-21 | every car is in the group of its own category, and a group holds only input cars of its key |
| Home.GroupsKeepInputOrder | src/pages/Home.tsx:16-21 | every group is a subsequence of the input |
| Home.KeysAreCategoriesAndGroupsNonEmpty | src/pages/Home.tsx:15-22 | the keys are exactly the categories present, and no group is empty |
| Home.GroupSizesSumToLength | src/pages/Home.tsx:17-20 | the group sizes add up to the number of cars |
| Home.NoGroupsIffNoCars | src/pages/Home.tsx:56 | there are no groups (the empty-state message) exactly when there are no cars |
| Ads.SortByPosition | src/pages/AdminCarouselAds.tsx:37-39 | the sort keeps the length and the multiset of ads |
| Ads.SortIsSorted | src/pages/AdminCarouselAds.tsx:37-39 | the sorted list is ascending by `order_position`, a missing one read as 0 |
| Ads.SortIsStable | src/pages/AdminCarouselAds.tsx:37-39 | ads with equal positions keep their input order |
| Ads.SortOfSortedIsIdentity | src/pages/AdminCarouselAds.tsx:37-39 | sorting a sorted list changes nothing |
| Ads.SortInPlace | src/pages/AdminCarouselAds.tsx:37-39 | the array sorted in place holds the stable position sort of its old contents |
| Ads.InsertInPlace | src/pages/AdminCarouselAds.tsx:37-39 | one step of the in-place sort inserts `a[i]` into the sorted prefix and leaves the rest of the array alone |
| AdminCarouselAds.MaxPosition | src/pages/AdminCarouselAds.tsx:67 | the maximum of the positions (missing read as 0) bounds each of them and is one of them |
| AdminCarouselAds.NextPosition | src/pages/AdminCarouselAds.tsx:67-74 | the new ad's position exceeds every existing one, is 1 for an empty list, and is otherwise one above an existing position |
| AdminCarouselAds.AddRequest | src/pages/AdminCarouselAds.tsx:61-76 | no request iff the title is empty or no file is chosen; otherwise the fields title, image, link when it is non-empty, order_position with the next position, and is_active '1', in that order, each carrying its value (the link entry the link text) |
| AdminCarouselAds.NewAdSortsLast | src/pages/AdminCarouselAds.tsx:67-74 | an ad created at the next position comes last when the list is sorted again |
| AdminCarouselAds.Flipped | src/pages/AdminCarouselAds.tsx:107 | the new status is true exactly when the current one is not true (undefined becomes true) |
| AdminCarouselAds.ToggleForm | src/pages/AdminCarouselAds.tsx:105-107 | the PUT body is '_method' then 'is_active', '1' exactly when the ad ends up active |
| AdminCarouselAds.SetActive | src/pages/AdminCarouselAds.tsx:111 | ads with the id get the new status, and every other ad and the length are unchanged |
| AdminCarouselAds.ToggleTwiceRestores | src/pages/AdminCarouselAds.tsx:111 | two toggles, the second from the status the first set, restore the list |
| AdminCarouselAds.PositionForm | src/pages/AdminCarouselAds.tsx:146-152 | a position write is '_method' then 'order_position' with the position's decimal text |
| AdminCarouselAds.MoveUpdates | src/pages/AdminCarouselAds.tsx:146-157 | the two writes of a move, or none when a position is missing (its `toString` throws before any request) |
| AdminCarouselAds.MoveUpSwapsWholeAds | src/pages/AdminCarouselAds.tsx:117-142 | moving up swaps the two ads whole, leaves every other slot and the multiset unchanged, and done twice restores the list |
| AdminCarouselAds.MoveUpSendsOldPositions | src/pages/AdminCarouselAds.tsx:144-157 | the writes of a move up carry each ad's own, unchanged position |
| AdminCarouselAds.MoveUpUnsortsAList | src/pages/AdminCarouselAds.tsx:125-142 | on a list with distinct ascending positions, moving up leaves the shown list out of position order |
| AdminCarouselAds.MoveUpUndoneByReload | src/pages/AdminCarouselAds.tsx:117-142 | on ads at positions 1, 2 and 3, moving the second up shows [2, 1, 3], but sorting again (the next load) restores [1, 2, 3] |
| AdminCarouselAds.MoveDownKeepsPositionsBySlot | src/pages/AdminCarouselAds.tsx:164-179 | moving down swaps the slots and exchanges the positions, so the position read at each slot is unchanged, as is every other slot |
| AdminCarouselAds.MoveDownSurvivesReload | src/pages/AdminCarouselAds.tsx:164-179 | moving down in a sorted list keeps it sorted, so the next load's sort leaves it as it is |
| AdminCarouselAds.MoveDownSendsSlotPositions | src/pages/AdminCarouselAds.tsx:181-193 | the writes of a move down give each ad the position of the slot it moved to |
| AdminCarouselAds.MoveUpIntended | src/pages/AdminCarouselAds.tsx:137-140 | the intended move up swaps the ads and exchanges their positions, keeping the position at every slot |
| AdminCarouselAds.MoveUpIntendedSurvivesReload | src/pages/AdminCarouselAds.tsx:137-140 | the intended move up is moving the ad above down, and it survives a reload of a sorted list |
| AdminCarouselAds.MoveUpIntendedScenario | src/pages/AdminCarouselAds.tsx:137-140 | on positions 1, 2 and 3 the intended move up shows the second ad first with position 1 and the first with position 2 |
| AdminCarouselAds.AdsPage.constructor | src/pages/AdminCarouselAds.tsx:10-11 | the page starts with no ads and loading |
| AdminCarouselAds.AdsPage.Fetch | src/pages/AdminCarouselAds.tsx:32-46 | an array payload is shown as fresh objects holding its stable position sort; any other payload gives the empty list; a failure keeps the list; loading ends in all cases |
| AdminCarouselAds.AdsPage.Delete | src/pages/AdminCarouselAds.tsx:91-101 | without a usable id or confirmation nothing changes; after a successful call every ad with the id is dropped and the rest keep their order |
| AdminCarouselAds.DeleteKeepsOthersInOrder | src/pages/AdminCarouselAds.tsx:96 | the list after a delete holds exactly the ads with another id, as a subsequence of the old list |
| AdminCarouselAds.AdsPage.ToggleActive | src/pages/AdminCarouselAds.tsx:103-115 | the request flips the status; on success the ads with the id become copies with that status and all other objects stay in their slots; on failure nothing changes |
| AdminCarouselAds.WithToggled | src/pages/AdminCarouselAds.tsx:111 | the mapped list replaces each ad with the id by a new object with the new status and keeps every other object |
| AdminCarouselAds.AdsPage.MoveUp | src/pages/AdminCarouselAds.tsx:117-162 | as written: no-op at slot 0 or without both ids; otherwise the slots swap, every object keeps its own position, those positions are sent, and a missing position or failed write asks for a reload |
| AdminCarouselAds.AdsPage.SwapUp | src/pages/AdminCarouselAds.tsx:125-140 | the slot swap followed by the two position exchanges leaves both objects with the positions they had |
| AdminCarouselAds.AdsPage.SwapDown | src/pages/AdminCarouselAds.tsx:171-177 | the slot swap followed by one exchange gives each object the other's position |
| AdminCarouselAds.AdsPage.MoveDown | src/pages/AdminCarouselAds.tsx:164-198 | no-op at the last slot or without both ids; otherwise the slots swap and the two positions are exchanged; the new positions are sent, and a missing position or failed write asks for a reload |
| AdminCarouselAds.SortedCopy | src/pages/AdminCarouselAds.tsx:37-39 | sorting an array copy of the payload in place gives its stable position sort |
| AdminCarouselAds.LoadedItems | src/pages/AdminCarouselAds.tsx:35-40 | an array payload becomes distinct fresh objects holding its position sort; any other payload becomes [] |
| HeroCarousel.ActiveAdsAreTheShownAdsSorted | src/components/HeroCarousel.tsx:14-16 | the active ads are exactly the ads whose status is not false, with their multiplicities, sorted by position, ads of equal position in input order |
| HeroCarousel.RendersIffSomeAdShown | src/components/HeroCarousel.tsx:57-59 | nothing is rendered exactly when every ad is switched off |
| HeroCarousel.Next | src/components/HeroCarousel.tsx:40-43 | the next slide stays below n, is i + 1 before the end and wraps to 0 at the end |
| HeroCarousel.Previous | src/components/HeroCarousel.tsx:35-38 | the previous slide stays in range, is n - 1 from 0 and i - 1 otherwise |
| HeroCarousel.NextPreviousInverse | src/components/HeroCarousel.tsx:35-43 | previous after next and next after previous both return to the starting index |
| HeroCarousel.Step | src/components/HeroCarousel.tsx:19-43 | the index stays in range; a tick advances only while autoplay is on with two slides or more; the next arrow selects the next slide, the previous arrow the previous one and a dot its own slide, each pausing autoplay; the resume timeout turns it back on |
| HeroCarousel.SingleSlideStaysPut | src/components/HeroCarousel.tsx:20-43 | with one active ad the index stays 0 whatever happens |
| HeroCarousel.AdClick | src/components/HeroCarousel.tsx:45-55 | an absent or empty link does nothing; a link starting with 'http://' or 'https://' opens in a new tab; any other link navigates in place |
| AdminCarForm.ToggleFeature | src/pages/AdminCarForm.tsx:141-148 | the feature is in the result iff it was not in the input; an absent feature is appended at the end; a present one has every copy removed, and the result is a subsequence of the input keeping every other feature with its multiplicity |
| AdminCarForm.ToggleTwiceRestores | src/pages/AdminCarForm.tsx:144-146 | toggling twice from a list without the feature gives that list back |
| AdminCarForm.RemoveImage | src/pages/AdminCarForm.tsx:137-139 | an index in range removes exactly that element and keeps the order of the others; any other index changes nothing |
| AdminCarForm.RemoveImageMultiset | src/pages/AdminCarForm.tsx:138 | removal takes away exactly one copy of the removed image |
| AdminCarForm.AppendUploads | src/pages/AdminCarForm.tsx:125-135 | no selection changes nothing; otherwise one new item per file, in file order, after the existing images |
| AdminCarForm.PickPrice | src/pages/AdminCarForm.tsx:96-99 | the nested price unless the `pricing` object is missing or its value nullish, then the flat price |
| AdminCarForm.PriceText | src/pages/AdminCarForm.tsx:108-111 | falsy prices (nullish, 0, '') give '' and any other price its text |
| AdminCarForm.LoadedForm | src/pages/AdminCarForm.tsx:101-112 | each text field or '' when missing; the year or the current year when it is missing or 0; the listing type or 'sale'; each price picked and rendered as above; the features or [] |
| AdminCarForm.LoadedImages | src/pages/AdminCarForm.tsx:115-117 | an array of URLs replaces the images with kept items in order; no array leaves them unchanged |
| AdminCarForm.NullishNestedPriceFallsBack | src/pages/AdminCarForm.tsx:96 | a null nested sale price falls back to the flat one |
| AdminCarForm.ZeroNestedPriceShowsEmpty | src/pages/AdminCarForm.tsx:96-108 | a nested 0 wins over the flat price and then shows as an empty input |
| AdminCarForm.BasicEntries | src/pages/AdminCarForm.tsx:158-163 | the six unconditional fields, title to listing_type in that order, the year as decimal text |
| AdminCarForm.IfFilled | src/pages/AdminCarForm.tsx:165-168 | a price entry exists iff its text is non-empty, and then it carries that text |
| AdminCarForm.ImageEntry | src/pages/AdminCarForm.tsx:177-184 | an image with a file is sent as 'images[]', any other as 'keep_images[]' with its URL |
| AdminCarForm.FeatureEntries | src/pages/AdminCarForm.tsx:171-173 | one 'additional_features[]' entry per feature, in order |
| AdminCarForm.ImageEntries | src/pages/AdminCarForm.tsx:177-184 | exactly one entry per image, in order |
| AdminCarForm.BuildSubmission | src/pages/AdminCarForm.tsx:155-188 | the append sequence, with its two loops, builds exactly the specified body |
| AdminCarForm.AppendBasic | src/pages/AdminCarForm.tsx:158-163 | the six unconditional appends give the basic fields |
| AdminCarForm.AppendPrices | src/pages/AdminCarForm.tsx:165-168 | the four conditional appends add exactly the filled prices, in order |
| AdminCarForm.AppendIfFilled | src/pages/AdminCarForm.tsx:165 | one conditional append adds the entry only for a non-empty value |
| AdminCarForm.AppendFeatures | src/pages/AdminCarForm.tsx:171-173 | the feature loop appends one entry per feature, in order |
| AdminCarForm.AppendImages | src/pages/AdminCarForm.tsx:177-184 | the image loop appends one entry per image, in order |
| AdminCarForm.FieldsNeverNamedMethod | src/pages/AdminCarForm.tsx:158-184 | no field before the override is named '_method' |
| AdminCarForm.FieldsLayout | src/pages/AdminCarForm.tsx:158-184 | the body's length and layout: the six basic fields, the filled prices, feature k, then image k |
| AdminCarForm.SubmissionLayout | src/pages/AdminCarForm.tsx:155-188 | the body is the fields with the six basic names first, plus one more entry exactly when editing, and it ends with '_method' = 'PUT' iff editing |
| AdminCarForm.SubmissionEndsWithOverrideIffEdit | src/pages/AdminCarForm.tsx:186-188 | the last entry is '_method' = 'PUT' exactly when the route carries an id |
| AdminCarForm.SalePriceSentIffFilled | src/pages/AdminCarForm.tsx:165 | a 'sale_price' entry is sent iff the input is non-empty, first among the prices, with that text |
| AdminSession.GuardRedirect | src/pages/AdminCarForm.tsx:76-80 | the admin pages redirect to '/admin/login' exactly when 'admin_session' is not exactly 'true' |
| PullToRefresh.Resisted | src/hooks/usePullToRefresh.ts:62 | the resisted distance is half the drag or the cap, whichever is smaller |
| PullToRefresh.ReleaseOutcome | src/hooks/usePullToRefresh.ts:68-76 | a release is ignored iff not pulling, refreshes iff pulling at or past the threshold, and resets iff pulling below it |
| PullToRefresh.Reset | src/hooks/usePullToRefresh.ts:130-135 | not pulling, distance 0, both coordinates 0, every other field unchanged |
| PullToRefresh.Released | src/hooks/usePullToRefresh.ts:68-76 | the state after each release outcome: unchanged, refreshing, or reset |
| PullToRefresh.Moved | src/hooks/usePullToRefresh.ts:56-65 | a move records the coordinate; a positive drag starts pulling at the resisted distance, and any other drag changes nothing else |
| PullToRefresh.MovedConsistent | src/hooks/usePullToRefresh.ts:53-66 | a move keeps the distance 0 unless pulling and never above the cap |
| PullToRefresh.ReleasedConsistent | src/hooks/usePullToRefresh.ts:68-76 | a release keeps that invariant, and it starts refreshing exactly when pulling at or past the threshold |
| PullToRefresh.ReleaseDuringRefreshRefreshesAgain | src/hooks/usePullToRefresh.ts:68-76 | a release does not look at the refreshing flag, so one during an unsettled refresh starts another |
| PullToRefresh.PullGesture.constructor | src/hooks/usePullToRefresh.ts:18-39 | the hook starts idle with distance and coordinates 0 |
| PullToRefresh.PullGesture.Scroll | src/hooks/usePullToRefresh.ts:41-44 | a scroll only updates the at-top flag |
| PullToRefresh.PullGesture.TouchStart | src/hooks/usePullToRefresh.ts:46-51 | a touch start records the start only at the top when not refreshing |
| PullToRefresh.PullGesture.TouchMove | src/hooks/usePullToRefresh.ts:53-66 | a touch move is ignored off the top, while refreshing or before a start, and otherwise is a move |
| PullToRefresh.PullGesture.TouchEnd | src/hooks/usePullToRefresh.ts:68-76 | a touch end is a release |
| PullToRefresh.PullGesture.MouseDown | src/hooks/usePullToRefresh.ts:78-84 | a mouse press and its start are recorded only at the top when not refreshing |
| PullToRefresh.PullGesture.MouseMove | src/hooks/usePullToRefresh.ts:86-98 | a mouse move is a move only with the button down, at the top and not refreshing |
| PullToRefresh.PullGesture.MouseUp | src/hooks/usePullToRefresh.ts:100-111 | a mouse up without a press does nothing; otherwise it clears the press and then acts as a release |
| PullToRefresh.PullGesture.TriggerRefresh | src/hooks/usePullToRefresh.ts:113-114 | the refresh starts: only the refreshing flag changes |
| PullToRefresh.PullGesture.RefreshSettled | src/hooks/usePullToRefresh.ts:124-127 | however the refresh ended, refreshing stops and the pull is reset |
| PullToRefresh.PullGesture.ResetPullState | src/hooks/usePullToRefresh.ts:130-135 | the pull state is reset |
| Api.Headers | api.ts:64-79 | Accept is always 'application/json'; Content-Type is set iff not multipart; Authorization is 'Bearer ' + token iff a non-empty token is stored; no other header |
| Api.GetHeaders | api.ts:64-79 | the conditional assignments build exactly those headers |
| Api.GetUserId | api.ts:81-83 | the stored 'user-id', or '' when there is none |
| Api.ResolveUserId | api.ts:165 | the passed user id when non-empty, else the stored one |
| Api.UrlsFallBackToStoredId | api.ts:164-166 | without a user id the cars URL uses the stored one, and with nothing stored the segment is empty |
| Api.HandleResponse | api.ts:86-94 | a failure throws the body's truthy message or 'Request failed with status N'; a 204 gives null; any other success gives the parsed body |
| Api.FailedResponsesThrow | api.ts:87-90 | every failed response throws, and a null body makes reading its message throw a TypeError |
| Api.LoginResult | api.ts:113-121 | login resolves to the result, unless reading the token of a null result throws |
| Api.LoginEffect | api.ts:113-120 | the token is stored iff `access_token` is truthy; the user is stored only then and only when truthy; no other key changes |
| Api.Login | api.ts:107-122 | login's storage writes and its result are exactly those |
| Api.FailedLoginStoresNothing | api.ts:113-120 | a failed login leaves storage as it was |
| Api.Logout | api.ts:153-161 | 'token' and 'user' are removed whatever the response, then the response is classified |
| Api.WriteRequest | api.ts:173-237 | the create and update helpers POST to their URL, with Content-Type exactly for a JSON body |
| Api.FormBodiesOmitContentType | api.ts:173-237 | multipart bodies of the four helpers go out without Content-Type, and JSON bodies with 'application/json' |
| Js.DataOrSelf | src/features/auth/authSlice.ts:22-23 | `response.data \|\| response`: the data when truthy, else the response; a null or undefined response throws |
| CarsSlice.UnwrapCars | src/features/cars/carsSlice.ts:19-27 | a doubly wrapped array, or a wrapped or bare one, is returned as is; any other payload, including a truthy non-array `data` with no array inside, gives []; a null or undefined response throws |
| CarsSlice.UnwrapNonArrayIsEmpty | src/features/cars/carsSlice.ts:21-27 | an object response gives the empty list unless its truthy `data` is an array or holds a truthy array `data` of its own (so `{data: 'x'}`, `{data: 5}` and `{data: {data: 'y'}}` all give []) |
| CarsSlice.Pending | src/features/cars/carsSlice.ts:36-38 | only the status changes, to loading |
| CarsSlice.Fulfilled | src/features/cars/carsSlice.ts:39-42 | the status is succeeded, the payload replaces the items and the error is kept |
| CarsSlice.Rejected | src/features/cars/carsSlice.ts:43-46 | the status is failed, the error is the message or 'Failed to fetch cars', and the items are kept |
| CarsSlice.FailureKeepsLoadedCars | src/features/cars/carsSlice.ts:39-46 | a failure after a success keeps the loaded cars, and a later success keeps an earlier error |
| CarsSlice.CarsStore.constructor | src/features/cars/carsSlice.ts:11-15 | the store starts with no items, idle and no error |
| CarsSlice.CarsStore.OnPending | src/features/cars/carsSlice.ts:36-38 | the pending reducer's new state is `Pending` of the old |
| CarsSlice.CarsStore.OnFulfilled | src/features/cars/carsSlice.ts:39-42 | the fulfilled reducer's new state is `Fulfilled` of the old |
| CarsSlice.CarsStore.OnRejected | src/features/cars/carsSlice.ts:43-46 | the rejected reducer's new state is `Rejected` of the old |
| AsyncStatus.ErrorText | src/features/cars/carsSlice.ts:45 | the rejection's message when non-empty, else the fallback |
| AuthSlice.InitialUserId | src/features/auth/authSlice.ts:13 | the stored 'user-id' when it is present and non-empty, else none |
| AuthSlice.StoredAfterSetUserId | src/features/auth/authSlice.ts:31-36 | a non-empty id is written to storage; null or '' leaves storage untouched |
| AuthSlice.SetUserIdSurvivesReload | src/features/auth/authSlice.ts:13-36 | a new store reads back a non-empty id that was set, and after clearing it the id stored before |
| AuthSlice.AuthStore.constructor | src/features/auth/authSlice.ts:12-17 | the store starts with the stored id, no profile, idle and no error |
| AuthSlice.AuthStore.SetUserId | src/features/auth/authSlice.ts:31-36 | the id is always set, and storage is written only for a non-empty one |
| AuthSlice.AuthStore.OnPending | src/features/auth/authSlice.ts:40-42 | only the status changes, to loading |
| AuthSlice.AuthStore.OnFulfilled | src/features/auth/authSlice.ts:43-47 | succeeded with the payload as profile; the id and error are kept |
| AuthSlice.AuthStore.OnRejected | src/features/auth/authSlice.ts:48-51 | failed with the message or 'Failed to fetch public profile'; the id and profile are kept |
| MainSlice.SetTheme | src/features/main/mainSlice.ts:19-21 | only the theme changes |
| MainSlice.ToggleSidebar | src/features/main/mainSlice.ts:22-24 | only the sidebar flag changes, and it is negated |
| MainSlice.SetLoading | src/features/main/mainSlice.ts:25-27 | only the loading flag changes |
| MainSlice.ToggleTwiceIsIdentity | src/features/main/mainSlice.ts:22-24 | toggling the sidebar twice is no change |
| MainSlice.ReducersCommute | src/features/main/mainSlice.ts:19-27 | the three reducers touch different fields, so any two commute |
| MainSlice.MainStore.constructor | src/features/main/mainSlice.ts:9-13 | the store starts light, sidebar closed, not loading |
| MainSlice.MainStore.OnSetTheme | src/features/main/mainSlice.ts:19-21 | the new state is `SetTheme` of the old |
| MainSlice.MainStore.OnToggleSidebar | src/features/main/mainSlice.ts:22-24 | the new state is `ToggleSidebar` of the old |
| MainSlice.MainStore.OnSetLoading | src/features/main/mainSlice.ts:25-27 | the new state is `SetLoading` of the old |
| AdminLogin.LoginEffect | src/pages/AdminLogin.tsx:15-20 | the session is active afterwards iff the credentials are exactly 'admin'/'password123' or it already was; no other key changes; a failure changes nothing |
| AdminLogin.FailedLoginKeepsSession | src/pages/AdminLogin.tsx:15-20 | a failed attempt leaves the guard's decision, and any stored session, as it was |
| AdminLogin.LoginOpensAdminPages | src/pages/AdminLogin.tsx:15-16 | after a valid login the admin pages no longer redirect |
| AdminLogin.CredentialsAreCaseSensitive | src/pages/AdminLogin.tsx:15 | 'Admin' is not the admin user, and logging in with it writes nothing |
| AdminLogin.LoginPage.constructor | src/pages/AdminLogin.tsx:7-9 | the inputs and the error start empty |
| AdminLogin.LoginPage.SetUsername | src/pages/AdminLogin.tsx:36 | only the username changes |
| AdminLogin.LoginPage.SetPassword | src/pages/AdminLogin.tsx:45 | only the password changes |
| AdminLogin.LoginPage.HandleLogin | src/pages/AdminLogin.tsx:12-21 | storage gets the login effect; it navigates to '/admin/dashboard' iff the credentials are valid; the error is set only on failure |
| Layout.NavItems | src/components/Layout.tsx:16-23 | three entries, '/' and '/filter' first; the third is the dashboard iff admin and the login page iff not |
| Layout.AtMostOneActive | src/components/Layout.tsx:36-47 | the paths are distinct, so at most one entry is active; some entry is active iff the pathname is one of the paths |
| Layout.NavFollowsGuard | src/components/Layout.tsx:14-23 | the bar offers the dashboard exactly when the admin guard lets it open |
| Layout.Logout | src/components/Layout.tsx:48-53 | offered only to an admin, it removes only 'admin_session' and goes to '/' |
| Layout.LogoutEndsSession | src/components/Layout.tsx:48-53 | after the logout the guard redirects, the bar offers the login page, and every other key is kept |
| App.PromptEffect | src/App.tsx:15-21 | the flag becomes 'true' exactly when the dialog is shown; otherwise and for every other key storage is unchanged |
| App.PromptShownOnce | src/App.tsx:17-19 | the dialog is shown at most once; with the flag present it is never shown; a non-mobile device never writes the flag |
| App.IPhoneIsMobile | src/App.tsx:16 | the mobile test is case-insensitive: an upper-case 'IPHONE' user agent is mobile |
| App.AppShell.constructor | src/App.tsx:13 | the dialog starts hidden |
| App.AppShell.MountEffect | src/App.tsx:15-21 | the mount effect shows the dialog iff mobile and the flag is unset, and writes the flag then |
| App.AppShell.CloseDialog | src/App.tsx:23 | closing hides the dialog and touches no storage |
| WhatsApp.CleanNumber | src/components/WhatsAppButton.tsx:20 | the cleaned number is all digits and never longer than the input |
| WhatsApp.CleanNumberKeepsDigits | src/components/WhatsAppButton.tsx:20 | cleaning keeps exactly the ASCII digits, in their order, each as often as in the input, and is idempotent |
| WhatsApp.ConfiguredNumberCleans | src/lib/whatsappConfig.ts:7 | the configured '+966500000000' cleans to '966500000000' |
| WhatsApp.ChatUrl | src/components/WhatsAppButton.tsx:18-26 | the link is 'https://wa.me/', the cleaned number, '?text=', then the encoded message or the default |
| WhatsApp.NumberEndsAtFirstQuestionMark | src/components/WhatsAppButton.tsx:26 | the number can be read back from the link: it ends at the link's first '?' |
| WhatsApp.ConfiguredChatUrl | src/lib/whatsappConfig.ts:7-10 | the layout's button links to 'https://wa.me/966500000000?text=' and the encoded configured message |
| WhatsApp.CarMessage | src/lib/whatsappConfig.ts:17-19 | the car message holds the title and then the id at fixed offsets of the template |

## Left out

- Rendering, styling, skeletons, dropdown visibility and the search page's collapsible panel are view-only and not modelled.
- Network transport is not modelled: every API result is an input value (`HttpResponse`, `FetchOutcome`, an `apiOk` flag), and `fetch` itself, FormData transport and the registration, profile, car, subscription and upload endpoints of api.ts are left out.
- The parallel dual write of the move handlers (`Promise.all`) is concurrency: the two writes are returned as a list, and a failure of either is a reload request.
- Timers are events: the autoplay interval is `Tick`, the 10-second resume is `Resume`, and the refresh timeout in `Promise.race` is one way for `RefreshSettled` to happen.
- React batching and stale closures are not modelled: state setters take effect at once, the gesture handlers read current values, and the `isAtTop` recomputation on re-mount is the `atTop` input of the handlers.
- `parseInt`, `parseFloat` and their NaN cases are not modelled: the filter takes parsed `Option<int>` and `Option<real>` criteria.
- CatalogFilter.NameCriterion: lower-casing is ASCII only (`Text.Lower`), not Unicode `toLowerCase`; the same holds for the `/i` mobile test in App.IsMobile.
- `encodeURIComponent`, `JSON.stringify`, `String(x)` for non-integral numbers and `URL.createObjectURL` are parameters of the functions that use them; `String(n)` for integers is `Text.IntToString`.
- The response decoding of `fetchAds` is taken as given: `FetchOutcome.Fetched` carries `Some(ads)` for an array payload and `None` otherwise.
- Ads.SortInPlace: ECMAScript requires `Array.prototype.sort` to be stable but not a particular algorithm; an insertion sort stands for it, and everything proved is about the stable result.
- The page handlers' loading flags, `alert` calls and the form reset and list refresh after `handleAdd` are not modelled; `handleAdd` is modelled as the request it makes (AdminCarouselAds.AddRequest). The ad image preview (`handleImageUpload` of the ad page) is a `createObjectURL` call and is left out.
- The car form's loading flag, its navigation after saving, and the choice between `createCar` and `updateCar` (Api.WriteRequest covers both) are not modelled as page state.
- `window.open` and `window.location` are not modelled: the click and logout operations return the target instead.
- Home.GroupByCategory: the result is a map, which has no key order; the page renders sections in `Object.entries` order (integer-like categories ascending, then the others in first-appearance order), and that order is not modelled.
- HeroCarousel.Step: the index is assumed valid for the current list. Shrinking the ad list under a running carousel is not modelled.
- Filter.tsx writes `user-id` to storage on every render (line 16). This is a render side effect and is not modelled.
- AdminDashboard.tsx guards on 'token', not 'admin_session'; it is not part of this model, and the two guards are kept apart.
- Layout.LogoutEndsSession: the navigation bar's logout removes only 'admin_session', so an API token stored by `api.login` survives it; the model states this and does not merge the two sessions.
- JavaScript's NaN and `-0` are not represented in `Js.JsValue`, so truthiness ignores them.

## Findings

| source | as written | input that shows it | evidently intended | confidence | as-written member | corrected member |
|---|---|---|---|---|---|---|
| src/pages/AdminCarouselAds.tsx:130-140 | `handleMoveUp` swaps the slots, then exchanges `order_position` twice (lines 132-133 and 138-140), so each ad keeps its own position; those unchanged positions are written back | ads at positions 1, 2, 3; move index 1 up: the list shows [2, 1, 3], the writes send 2 and 1 to their own ads, and the next load sorts back to [1, 2, 3] | exchange the two positions once, as `handleMoveDown` does, so the move survives a reload | high (proved on the model; not executed) | AdminCarouselAds.MoveUpUndoneByReload | AdminCarouselAds.MoveUpIntendedSurvivesReload |
