# Travel Planner front end — a Dafny model of its core

This project models the client-side core of the Travel Planner web
application in Dafny:

- **The session store** (`Auth`, `Storage`): the authentication provider's
  `user`, `token` and `isAuthenticated` fields and the single persisted
  `'token'` slot. Login, register and logout change them step by step.
  `useAuth` fails outside a provider.
- **The HTTP client** (`Api`):
  - The request interceptor attaches `Authorization: Bearer <token>` in place
    when a non-empty token is stored.
  - The endpoint table gives, per resource object, the verb and path of each
    function.
  - Item paths are decimal ids after the collection, and the rendering is
    proved to parse back.
- **The page controller** (`Views`): the state machine the Budget, Itinerary,
  Culinary, Packing and Posts pages share. It covers `isCreating`,
  `editingItem`, submit/cancel/delete and the mutation success callbacks. The
  query cache is reduced to the set of keys marked stale.
- **The derived views**:
  - the budget total (`Budget`);
  - the itinerary sort by timestamp, then group by date (`Itinerary`);
  - the culinary group by cuisine type (`Culinary`);
  - the packing checkbox toggle and item count (`Packing`);
  - the post form's rules (`Posts`).
  - Both group-bys share one imperative "push into a keyed record" loop and
    its proved specification (`Grouping`).
- **The main layout** (`Layout`): `classNames`, the navigation bar's
  current-entry marking, the sign-out handler and the avatar initial.

Network replies, `window.confirm` answers and whether a mutation succeeded
are parameters. The browser's storage is an object with one optional string
field.

Where the code and its declared types disagree, the model follows the code:

- Login and register read `access_token` from the reply, although the
  declared reply type names the field `token`. The model lets a reply lack
  `access_token`. For such a reply, `setItem` stores the text "undefined"
  while the in-memory token stays absent. The session still counts as
  active, and later requests carry `Bearer undefined`.
- The budget page computes with `unitCost` and `quantity`, although the
  declared `BudgetItem` has `amount` and `date`.
- The packing page reads and writes `isChecked`, although the declared
  `PackingItem` has `is_packed`. The packing record therefore carries both,
  each optional.

## Model

| member | source | states |
|---|---|---|
| Storage.LocalStorage.SetToken | src/utils/AuthContext.tsx:27 | after `setItem('token', v)` the slot holds exactly `v` |
| Storage.LocalStorage.RemoveToken | src/utils/AuthContext.tsx:53 | after `removeItem('token')` the slot is empty |
| Api.RequestConfig.constructor | src/utils/api.ts:5-10 | a request starts from the instance's base URL and the one header the instance declares, `Content-Type: application/json` |
| Api.Intercept | src/utils/api.ts:13-20 | with a stored non-empty token, the headers gain `Authorization` set to the bearer credential and nothing else changes; otherwise the headers are unchanged; the same configuration object is returned |
| Api.BearerCarriesToken | src/utils/api.ts:15-17 | a credential is produced exactly for a present, non-empty token, and stripping the `Bearer ` prefix gives back the stored token |
| Api.Route | src/utils/api.ts:94-174 | every resource object has all five functions except `itineraryActivityAPI`, which lacks exactly the item operations |
| Api.RouteLaws | src/utils/api.ts:94-143 | `getAll` is GET and `create` is POST on `/<collection>`; item operations address `/<collection>/<id>`; `getById` is GET, `delete` is DELETE; `update` is PATCH for itineraries and culinary and PUT otherwise |
| Api.IdStringRoundTrip | src/utils/api.ts:96 | the decimal rendering of any id in a path parses back to that id |
| Api.ItemPathInjective | src/utils/api.ts:96-101 | two ids reach the same item path of a resource only if they are equal |
| Api.PackingListSameAsPacking | src/utils/api.ts:164-174 | `packingListAPI` sends every operation to the same verb and path as `packingAPI` |
| Auth.AuthProvider.constructor | src/utils/AuthContext.tsx:15-18 | on mount the token is the stored one, there is no user, and the session is active iff the stored token is present and non-empty |
| Auth.Stored | src/utils/AuthContext.tsx:27 | storage keeps a present token as it is and a missing one as the text "undefined" |
| Auth.AuthProvider.Establish | src/utils/AuthContext.tsx:25-33 | after a successful reply, storage holds the stored form of the reply's token and memory holds the token as received (absent when the reply lacks it); the user is set and the session is active; a failed call changes nothing and returns its error |
| Auth.AuthProvider.Login | src/utils/AuthContext.tsx:23-35 | sends the credentials to POST `/auth/login`; on success storage holds the stored form of the reply's token and memory the token itself; the two agree exactly when the reply carries `access_token`; the user is the reply's user and the session is active; on failure every field and the stored slot are unchanged and the error is passed on |
| Auth.AuthProvider.Register | src/utils/AuthContext.tsx:37-50 | the same as login, sent to POST `/auth/register` with the name |
| Auth.AuthProvider.Logout | src/utils/AuthContext.tsx:52-57 | afterwards the stored token, token and user are absent, the session is inactive, and memory and storage agree |
| Auth.UseAuth | src/utils/AuthContext.tsx:75-81 | yields the provider exactly when one is in scope, otherwise fails with the fixed message |
| Auth.TokenlessLoginThenRequest | src/utils/AuthContext.tsx:25-30 | after a login whose reply lacks `access_token`, the session is active with no in-memory token, storage holds "undefined", and the next request gains `Authorization: Bearer undefined` |
| Auth.LogoutThenRequest | src/utils/AuthContext.tsx:52-57 | after logout the interceptor attaches no credential, and a second logout leaves every field as the first one did |
| Views.QueryCache.Invalidate | src/pages/Posts.tsx:24 | invalidating a key adds exactly that key to the stale set |
| Views.Loaded | src/pages/Posts.tsx:65 | `response?.data \|\| []`: the loaded items, or none while the response is missing |
| Views.CallEndpoint | src/utils/api.ts:97-101 | a fired create goes to POST `/<collection>`, update to PATCH on the item path for itineraries and culinary and to PUT on it otherwise, delete to DELETE on the item path; no call, no request |
| Views.ResourceView.constructor | src/pages/Posts.tsx:12-13 | a page starts with no form open and nothing being edited |
| Views.ResourceView.FormShown | src/pages/Posts.tsx:81 | the form is shown exactly while creating or while an item is being edited |
| Views.ResourceView.StartCreate | src/pages/Posts.tsx:73 | the create button opens the form |
| Views.ResourceView.StartEdit | src/pages/Posts.tsx:169 | the edit button records the item and opens the form |
| Views.ResourceView.Cancel | src/pages/Posts.tsx:129-133 | cancel closes the form (both states cleared) and resets it once |
| Views.ResourceView.Submit | src/pages/Posts.tsx:52-59 | invalid data fires nothing; valid data fires update with the edited item's id when editing (even while creating), otherwise create, and resets the form once |
| Views.ResourceView.ConfirmDelete | src/pages/Posts.tsx:174-178 | delete fires, with the item's id, exactly when the confirmation is true |
| Views.ResourceView.Settle | src/pages/Posts.tsx:21-43 | a successful mutation invalidates exactly the page's key; create success closes creation, update success clears the edited item, delete success touches neither; failure changes nothing |
| Grouping.GroupBy | src/pages/Culinary.tsx:82-89 | the push-into-record loop computes exactly the grouped entries of the specification |
| Grouping.GroupKeysSpec | src/pages/Culinary.tsx:82-89 | group keys are distinct, every item's key is a group, and every group has an item |
| Grouping.MatchingIsSubsequence | src/pages/Culinary.tsx:87 | each group holds, in input order, exactly the items with its key |
| Grouping.SizesSumToCount | src/pages/Culinary.tsx:82-89 | the group sizes add up to the number of items |
| Grouping.FirstAppearanceOrder | src/pages/Culinary.tsx:290 | groups are listed in order of their key's first appearance |
| Grouping.GroupsNonEmptyAndKeyed | src/pages/Culinary.tsx:84-87 | every group is non-empty and holds only items of its key |
| Grouping.ItemInOwnGroup | src/pages/Culinary.tsx:82-89 | every item appears in the group of its key |
| Grouping.GroupedPartition | src/pages/Culinary.tsx:82-89 | the groups partition the items by key |
| Budget.ValidBudgetForm | src/pages/Budget.tsx:104-179 | category and description required, quantity required and at least 1, unit cost required and at least 0, so an accepted expense never has a negative amount |
| Budget.Total | src/pages/Budget.tsx:68 | the reduce: from 0, add each item's unit cost times quantity, left to right |
| Budget.Amounts | src/pages/Budget.tsx:232 | each displayed amount is that item's unit cost times quantity |
| Budget.TotalIsSumOfAmounts | src/pages/Budget.tsx:68 | the reduce's total equals the sum of the displayed per-item amounts |
| Budget.TotalAppend | src/pages/Budget.tsx:68 | the total of a concatenation is the sum of the totals |
| Budget.TotalNonNegative | src/pages/Budget.tsx:132-160 | items that obey the form's rules (quantity at least 1, unit cost at least 0) give a total that is not negative |
| Budget.TotalExpenses | src/pages/Budget.tsx:67-68 | the shown total is 0 without a response and otherwise the sum of the per-item amounts |
| Budget.DefaultQuantity | src/pages/Budget.tsx:137 | the quantity field starts at 1 when no item is edited or its quantity is 0, and at the edited item's quantity otherwise, negative ones included; it never starts at 0 |
| Budget.NewBudgetView | src/pages/Budget.tsx:14-45 | the page's controller uses the key `budget`, `budgetAPI` and the expense form's rules |
| Itinerary.ValidItineraryForm | src/pages/Itinerary.tsx:125-222 | title, description, location, date, start time and end time are all required |
| Itinerary.Before | src/pages/Itinerary.tsx:80-84 | the comparator's order is lexicographic: the date no later, and on the same date the start time no later |
| Itinerary.BeforeTotal | src/pages/Itinerary.tsx:80-84 | any two activities are comparable by timestamp |
| Itinerary.BeforeTransitive | src/pages/Itinerary.tsx:80-84 | the timestamp order is transitive |
| Itinerary.SortByTime | src/pages/Itinerary.tsx:80-84 | the sorted copy is in timestamp order and is a permutation of the loaded activities |
| Itinerary.GroupDatesAscending | src/pages/Itinerary.tsx:86-93 | on sorted activities the date groups appear in strictly ascending date order |
| Itinerary.GroupStartTimesAscending | src/pages/Itinerary.tsx:86-93 | within a date group every activity has that date and start times ascend |
| Itinerary.SortedGroupDates | src/pages/Itinerary.tsx:260 | the rendered date sections are in strictly ascending order |
| Itinerary.SortedGroupTimes | src/pages/Itinerary.tsx:260 | each rendered section lists its own day's activities by start time |
| Itinerary.GroupedItinerary | src/pages/Itinerary.tsx:79-93 | the view is the sorted activities grouped by date: empty without a response, dates strictly ascending, start times ascending within a day, and every loaded activity shown once |
| Itinerary.NewItineraryView | src/pages/Itinerary.tsx:27-57 | the page's controller uses the key `itinerary`, `itineraryAPI` and the activity form's rules |
| Culinary.ValidCulinaryForm | src/pages/Culinary.tsx:121-240 | name, description, location, cuisine type and price range required; rating required and between 1 and 5; notes optional |
| Culinary.GroupedCulinary | src/pages/Culinary.tsx:81-89 | the view is the loaded experiences grouped by cuisine: empty without a response, non-empty groups of one cuisine each, every experience shown once |
| Culinary.NewCulinaryView | src/pages/Culinary.tsx:28-59 | the page's controller uses the key `culinary`, `culinaryAPI` and the experience form's rules |
| Packing.ValidPackingForm | src/pages/Packing.tsx:102-115 | the item name is required and the packed checkbox optional |
| Packing.Checked | src/pages/Packing.tsx:162 | the checkbox shows an item checked only when `isChecked` is true |
| Packing.Toggled | src/pages/Packing.tsx:166 | the toggled record equals the item in every field except `isChecked`, which is set and shows the opposite checkbox state |
| Packing.ToggleTwice | src/pages/Packing.tsx:166 | toggling twice restores the record exactly when it carried an `isChecked` flag; an absent flag comes back as false |
| Packing.ToggleCall | src/pages/Packing.tsx:163-167 | the checkbox fires update with the item's id and the toggled record |
| Packing.ToggleEndpoint | src/pages/Packing.tsx:164-167 | the toggle is sent as PUT to `/packing/<id>` |
| Packing.ToggleSettles | src/pages/Packing.tsx:29-36 | a successful toggle marks `packing` stale and, sharing the update mutation, also clears the edited item |
| Packing.ItemCount | src/pages/Packing.tsx:65-74 | the shown total is the number of loaded items, 0 without a response |
| Packing.NewPackingView | src/pages/Packing.tsx:12-43 | the page's controller uses the key `packing`, `packingAPI` and the item form's rules |
| Posts.ValidPostForm | src/pages/Posts.tsx:97-115 | title and content are required |
| Posts.NewPostsView | src/pages/Posts.tsx:12-43 | the page's controller uses the key `posts`, `postsAPI` and the post form's rules |
| Posts.SubmitEndpoints | src/pages/Posts.tsx:52-57 | a submitted edit goes to PUT `/posts/<id>` and a new post to POST `/posts` |
| Layout.NonEmpty | src/layouts/MainLayout.tsx:8 | `filter(Boolean)` keeps only non-empty arguments, every non-empty argument as often as it occurs |
| Layout.NonEmptyFilterLaws | src/layouts/MainLayout.tsx:8 | the filter distributes over concatenation and keeps a single argument exactly when it is non-empty, so the result is the non-empty arguments in their original order |
| Layout.Join | src/layouts/MainLayout.tsx:8 | `join(' ')`: the strings with one space between neighbours |
| Layout.ClassNames | src/layouts/MainLayout.tsx:7-9 | the non-empty arguments joined by single spaces |
| Layout.ClassNamesEmpty | src/layouts/MainLayout.tsx:7-9 | `classNames` is empty exactly when every argument is empty |
| Layout.ClassNamesTokens | src/layouts/MainLayout.tsx:7-9 | the classes of the result are the classes of the arguments, in order, and no others |
| Layout.Navigation | src/layouts/MainLayout.tsx:16-25 | five entries, Dashboard, Budget, Packing, Itinerary, Culinary with their hrefs, each current iff its href is the pathname |
| Layout.NavigationCurrent | src/layouts/MainLayout.tsx:16-25 | at most one entry is current, and one is exactly when the pathname is a listed href |
| Layout.HandleLogout | src/layouts/MainLayout.tsx:27-30 | sign-out leaves the session logged out and navigates to `/login` |
| Layout.UpperCase | src/layouts/MainLayout.tsx:70 | lower-case ASCII letters become their capitals; every other character is kept |
| Layout.AvatarInitial | src/layouts/MainLayout.tsx:70 | no initial without a user or with an empty username; otherwise the username's first character, upper-cased |

## Left out

- Rendering: JSX, Tailwind classes, the Headless UI menu and its transitions, and the loading placeholder are presentation only.
- Transport: axios and React Query (asynchronous fetching, refetching, retries). Replies and mutation outcomes are parameters, and the query cache is the set of stale keys.
- Api.RequestConfig.constructor: the model keeps only the header the instance declares. The defaults axios merges into each request, such as its `Accept` header, are not modelled.
- Api.IdStringRoundTrip: ids are unbounded integers rendered in plain decimal. A JavaScript number matches this only for safe integers, below 2^53 in magnitude. Larger ids lose precision, and from 10^21 upward `${id}` renders in exponent form, so the round trip and Api.ItemPathInjective are not claimed for them.
- The interceptor's error handler only passes rejections on (src/utils/api.ts:21-23), so nothing is modelled for it.
- Interleavings of concurrent asynchronous calls are not modelled. Each operation runs to completion.
- Logging of login and registration errors to the console is not modelled.
- Itinerary.Before: `new Date` reads a date-time without an offset in the browser's time zone, and a start time inside a daylight-saving gap is moved an hour later (in New York on 2024-03-10, "02:30" sorts after "03:00"). The string order does not follow that shift. Start times are also assumed to share one precision. One instant written two ways, such as "09:00" and "09:00:00", is ordered by string ("09:00" first), whereas the comparator ties them and the stable sort keeps their input order.
- Layout.ClassNamesTokens: class tokens are separated by the space character only. The browser also splits on tab, line feed, form feed and carriage return. The `classNames` arguments of the layout contain no such characters.
- Itinerary.SortByTime: the `Date` parsing is modelled as the string order of the ISO date, then of the start time. Malformed dates, whose comparisons give NaN, are outside the model.
- Itinerary.SortByTime: the contract states sortedness and permutation but not the stability of the browser's sort.
- Locale date formatting and `toFixed(2)` are display only.
- Budget.TotalExpenses: amounts are whole numbers, not floating point. The inputs use `step="1"`.
- Culinary ratings are exact reals. The browser-enforced `step="0.5"` is not part of the form rules.
- react-hook-form's machinery is reduced to a predicate per form: the declared `required`, `min` and `max` rules. An empty number input is `None`.
- `Object.entries` lists integer-like keys first. Dates and cuisine names are not integer-like, so groups are kept in first-appearance order. A key named like an `Object.prototype` member is not modelled.
- Layout.UpperCase: only the ASCII range is modelled. `toUpperCase` of other characters, including ones that expand to two characters, is not. The first character is a Unicode scalar, not a UTF-16 code unit.
- The dashboard and the router table (src/pages/Dashboard.tsx, src/App.tsx) are not part of this model. The dashboard reads query keys such as `budgets` that no page invalidates.
- `authAPI.getProfile` and `userAPI.getProfile` are kept as endpoint constants only; no core code calls them.
