# grocer-project, modelled in Dafny

The grocer project is a shared grocery list. It has three parts:

- an Express/Mongo server that stores items and accounts;
- a React Native app where household members add, buy and re-add items;
- a React admin site that lists, counts and deletes users and items.

This project models that logic in Dafny and proves properties of the model:

- **Item lifecycle.** The item document and its schema defaults, the
  `/add_new_item` checks and defaulting, the "due today" filter of
  `/get_items`, the `/get_future_items` filter and sort, the three purchase
  transitions of `/mark_item_bought`, the hard delete and the dashboard
  counters.
- **Client validators and small state machines.** The add-item modal (day
  chips, schedule buttons, the 90-day picker, the ordered submit guards and
  the payload), the history page (purchased items sorted in place by
  `updatedAt`, "Add Again"), the item card, the profile page's password
  change, and the admin user and item tables (date formatting, selection
  sets, select-all, single and batch delete).
- **Account tables.** Register, login, change-password and delete, for users
  and for admins.

The stores are classes: `ItemStore.Store` holds the items and
`Accounts.AccountTable` holds the accounts. Pages that keep React state
are classes too. Each setter's effect is a field update, and the
contracts state the whole new state. Pure route logic is written as
functions, with lemmas relating them.

Conventions:

- **Dates.** A `Calendar.Instant` is a local-time day number plus
  milliseconds into that day. Day 0, 1 January 1970, was a Thursday. "Now"
  and "today" are always parameters.
- **Missing text.** A missing, `null` or `''` text field is the empty
  string. Every reader in the source treats these alike as falsy. A
  stored optional value that can be `null` is an `Option`.
- **Server replies.** A reply is an `Outcomes.Response`: `Ok` for 200/201,
  `BadRequest` for 400, `NotFound` for 404 and `ServerError` for 500. The
  reply keeps its `message` or `error` text.
- **Page requests.** Where a page calls the server, the matching store
  method takes the place of the request. The page then reads the reply's
  text field the way the source does.

## Model

| member | source | states |
|---|---|---|
| ItemModel.ParseScheduleType | server/src/models/Item.js:31-35 | only `none`, `regular` and `specific` pass the enum, and each maps back to its own spelling |
| ItemModel.SchemaDefaults | server/src/models/Item.js:18-44 | an item given only the required paths is unpurchased, unscheduled, has no days, no buyer, no dates, empty description, and both timestamps equal to the creation time |
| AddItem.Admit | server/src/routes/add_new_items_routes.js:9-29 | a missing name, quantity or owner is the 400 with its text. An out-of-enum type fails at save as a 500. Otherwise the document stores the supplied values verbatim, defaults the rest, starts unpurchased with no buyer, and the reply is "Item added successfully." |
| AddItem.RouteDefaultsAgreeWithSchema | server/src/routes/add_new_items_routes.js:12-22 | a request with only the required fields gives exactly the schema-default document |
| AddItem.InconsistentSchedulesAccepted | server/src/routes/add_new_items_routes.js:12-22 | a regular item with no days and a specific item with no date are both accepted |
| ItemStore.Store.AddNewItem | server/src/routes/add_new_items_routes.js:9-25 | on success exactly one document is appended and the id counter advances. On rejection the store is unchanged and the refusal is forwarded |
| MarkBought.BuildPatch | server/src/routes/mark_item_bought.js:14-21 | the `$set` always carries the status. A purchase with a buyer sets the buyer and the purchase date to now. An unpurchase sets both to null. A purchase without a buyer leaves both out |
| MarkBought.Marked | server/src/routes/mark_item_bought.js:14-27 | bought with a buyer records the buyer and now. Bought without one keeps the earlier buyer and date. Unbought clears both. Nothing but these fields and `updatedAt` changes |
| MarkBought.LastWriteWins | server/src/routes/mark_item_bought.js:15-17 | marking bought twice leaves the second buyer and date |
| MarkBought.UnmarkRestores | server/src/routes/mark_item_bought.js:14-27 | buy-then-unbuy gives back the original document apart from `updatedAt` |
| ItemStore.Store.MarkItemBought | server/src/routes/mark_item_bought.js:10-33 | a missing status is a 400 and an unknown id a 404, both with the store unchanged. Otherwise only the target item is replaced by its marked version, which is returned |
| ItemStore.WithoutId | server/src/routes/delete_item.js:8 | the result holds exactly the documents with a different id, in store order |
| ItemStore.WithoutPresentId | server/src/routes/delete_item.js:8 | with unique ids, deleting a present id removes exactly one position |
| ItemStore.Store.DeleteItem | server/src/routes/delete_item.js:8-14 | succeeds iff the id is present, returning that document. The collection shrinks by one and the id is gone. An absent id is a 404 "Item not found." with the store unchanged |
| ActiveItems.GetItems | server/src/routes/get_items_routes.js:14-27 | the result is a subsequence of the store, in store order. It contains exactly the items due today, none of them purchased |
| ActiveItems.UnscheduledAlwaysDue | server/src/routes/get_items_routes.js:17 | every unpurchased `none` item is returned on every day |
| ActiveItems.RegularDueIffWeekday | server/src/routes/get_items_routes.js:8-21 | a regular item is due iff today's name in the Sunday-first table is among its days |
| ActiveItems.SpecificDueIffSameDay | server/src/routes/get_items_routes.js:11-25 | a specific item is due iff its date falls on today's calendar day, whatever the time of day |
| Calendar.WithinDayOfIffSameDay | server/src/routes/get_items_routes.js:11-12 | the inclusive window 00:00:00.000 to 23:59:59.999 holds exactly the instants of the same day |
| ActiveItems.EmptySchedulesNeverDue | server/src/routes/get_items_routes.js:18-25 | regular with no days, or specific with no date, is never due |
| ActiveItems.RegularRecursWeekly | server/src/routes/get_items_routes.js:8-21 | a regular item's due state repeats every seven days |
| ActiveItems.MondayThursdayScenario | server/src/routes/get_items_routes.js:8-21 | a Monday/Thursday item is due on a Monday and not on a Tuesday |
| ActiveItems.FiveDaysAheadScenario | server/src/routes/get_items_routes.js:22-25 | an item planned five days ahead is due on the fifth day only |
| FutureItems.ParseFutureType | server/src/routes/get_future_items_routes.js:9-11 | only `regular` and `specific` are accepted |
| FutureItems.GetFutureItems | server/src/routes/get_future_items_routes.js:9-19 | a bad type is the 400 with its text. Otherwise the result is newest-created first and a permutation of the unpurchased items of that type |
| FutureItems.DueTodayAlsoFuture | server/src/routes/get_future_items_routes.js:14-17 | a scheduled item due today is also on its future list |
| Dashboard.CountUsers | server/src/routes/dashboard_routes.js:9 | the count is the number of distinct user ids |
| Dashboard.UserIdsSize | server/src/routes/dashboard_routes.js:9 | with unique ids, that is the number of users |
| Dashboard.CountItems | server/src/routes/dashboard_routes.js:20 | the count is the purchased items plus the unpurchased ones |
| Dashboard.TallyByKey | server/src/routes/dashboard_routes.js:35-54 | the map's entry for a name is the number of items keyed by that name, and every entry is positive, so a name without items has none |
| Dashboard.UserStatistics | server/src/routes/dashboard_routes.js:32-61 | one entry per user, in user order. Each entry holds the user's name, the items they added, and the purchased items they bought, with 0 when there are none |
| Dashboard.EmptyNameTalliesZero | server/src/routes/dashboard_routes.js:46-54 | items with no owner or no buyer count for nobody |
| Dashboard.StatisticsBounded | server/src/routes/dashboard_routes.js:35-61 | with unique names, the added counts sum to at most `count_items`, and the bought counts to at most the number of purchased items |
| HistoryPage.SortByUpdatedDesc | MobileUser/components/HistoryPage.js:56 | sorts the array in place, most recently updated first, keeping exactly the same elements |
| HistoryPage.HistoryPage.FetchHistory | MobileUser/components/HistoryPage.js:44-66 | on success the list holds exactly the purchased items of the reply, sorted. On failure the reply's error or "Failed to fetch history" is shown and the list is kept |
| HistoryPage.HistoryPage.constructor | MobileUser/components/HistoryPage.js:9-13 | the user name defaults to "User" |
| HistoryPage.ReAddRequest | MobileUser/components/HistoryPage.js:23-29 | the payload copies name and quantity, sets the viewer as owner, copies the description, and asks for `none` with no days or date |
| HistoryPage.ReplayIsDueEveryDay | MobileUser/components/HistoryPage.js:23-29 | a replay of a valid item is accepted as an unscheduled item, which is due on every day |
| HistoryPage.HistoryPage.HandleReAdd | MobileUser/components/HistoryPage.js:15-42 | the id is in flight during the request and cleared afterwards. The history list is untouched. The alert is the success or failure text |
| AddItemModal.ChipsAreServerWeekdays | MobileUser/components/AddItemModal.js:7 | the Monday-first chips are exactly the server's Sunday-first names |
| AddItemModal.ToggleDay | MobileUser/components/AddItemModal.js:22-28 | flips exactly one day's membership. An absent day is appended at the end |
| AddItemModal.ToggleKeepsNoDuplicates | MobileUser/components/AddItemModal.js:22-28 | the day list never holds a duplicate |
| AddItemModal.ToggleTwiceRestores | MobileUser/components/AddItemModal.js:22-28 | toggling an absent day twice restores the list |
| AddItemModal.Press | MobileUser/components/AddItemModal.js:147-153 | a schedule button selects its own schedule exactly when that schedule was not already selected; otherwise it goes back to `none` |
| AddItemModal.ButtonsStayInEnum | MobileUser/components/AddItemModal.js:147-153 | the schedule buttons only ever produce the three enum values |
| AddItemModal.GetUpcomingDates | MobileUser/components/AddItemModal.js:30-39 | 90 dates at offsets 1..90, strictly increasing, none of them today |
| AddItemModal.SubmitError | MobileUser/components/AddItemModal.js:45-61 | the first failing guard's message: name/quantity, then regular without days, then specific without date |
| AddItemModal.SubmitPayload | MobileUser/components/AddItemModal.js:69-77 | days only for a regular item and the date only for a specific one |
| AddItemModal.AcceptedFormIsConsistent | MobileUser/components/AddItemModal.js:45-77 | a form that passes the guards yields an accepted item whose schedule has its days or its date |
| AddItemModal.AddItemModal.ResetForm | MobileUser/components/AddItemModal.js:95-103 | every field is back to its initial value |
| AddItemModal.AddItemModal.VisibilityChanged | MobileUser/components/AddItemModal.js:105-107 | hiding the modal resets it |
| AddItemModal.AddItemModal.HandleSubmit | MobileUser/components/AddItemModal.js:41-93 | a failed guard sets its text, sends nothing and keeps every form field. An accepted item resets and closes the form. A refused one shows "Failed to add item." and keeps every form field |
| ItemCard.RenderCard | MobileUser/components/ItemCard.js:7-60 | no card for no item. The fallbacks apply. "You" is shown iff the viewer owns the item. Delete is disabled iff not the owner and bought is never disabled. Each badge shows under its rule. Callbacks get `_id`, else `id` |
| ItemCard.OneBadgeAtMost | MobileUser/components/ItemCard.js:32-46 | a card never shows both the repeat and the planned badge |
| ItemCard.OwnerlessItemBelongsToUnknown | MobileUser/components/ItemCard.js:13-60 | an item without owner can be deleted only by a user named "Unknown" |
| ProfilePage.PasswordChangeError | MobileUser/components/ProfilePage.js:29-43 | the first failing check's message: empty field, mismatch, fewer than 4 characters |
| ProfilePage.GuardsImplyRouteFields | MobileUser/components/ProfilePage.js:29-56 | a request with a user name and a password that passes the guards never fails the route's required-field check (`Accounts.ChangeFieldsMissing`), so the route's 400 cannot come back |
| ProfilePage.ProfilePage.Request | MobileUser/components/ProfilePage.js:52-55 | the body holds exactly the user name and the new password |
| ProfilePage.ProfilePage.constructor | MobileUser/components/ProfilePage.js:15-21 | the user name defaults to "Guest" |
| ProfilePage.ProfilePage.HandleChangePassword | MobileUser/components/ProfilePage.js:29-70 | a failed guard sets its text and sends nothing. A success replaces the password in the table and logs out. An unknown user shows "User not found.". The route's 400 text never shows |
| Accounts.FindByName | server/src/routes/user_login_routes.js:14 | finds an account of that name iff one exists |
| Accounts.Login | server/src/routes/user_login_routes.js:10-24 | missing fields, unknown name and wrong password are each a 400 with its text. Success iff the stored password matches. The table is only read |
| Accounts.LoginIffStoredPair | server/src/routes/user_login_routes.js:14-24 | with unique names, login succeeds iff the name-password pair is stored |
| Accounts.WithPassword | server/src/routes/change_password_routes.js:20-21 | only the named account's password changes |
| Accounts.LoginAfterChange | server/src/routes/change_password_routes.js:20-21 | after a change, login with the new password succeeds |
| Accounts.WithoutAccount | server/src/routes/delete_user.js:8 | the result holds exactly the accounts with a different id |
| Accounts.RemoveAtKeepsInvariants | server/src/routes/delete_user.js:8 | removing one account keeps names and ids unique, and that id is gone |
| Accounts.AccountTable.Register | server/src/routes/user_register_routes.js:8-20 | missing fields and an existing name are 400s with the table unchanged. A new name appends exactly one account |
| Accounts.AccountTable.ChangePassword | server/src/routes/change_password_routes.js:8-23 | missing fields are a 400. An unknown user is a 404 "User not found.". Otherwise the password is replaced, with no check of the old one |
| Accounts.AccountTable.DeleteUser | server/src/routes/delete_user.js:8-14 | succeeds iff the id is present, returning that account. The table shrinks by one. An absent id is a 404 with the table unchanged |
| Selection.Toggle | website-admin/src/components/UserPage.jsx:95-105 | flips exactly one id's membership |
| Selection.ToggleTwiceRestores | website-admin/src/components/UserPage.jsx:95-105 | flipping twice restores the set |
| Selection.SelectAll | website-admin/src/components/UserPage.jsx:108-115 | checked selects exactly the row ids, unchecked selects none |
| Selection.DistinctCard | website-admin/src/components/UserPage.jsx:160 | distinct row ids make a set of the same size |
| Selection.IsAllSelectedIff | website-admin/src/components/UserPage.jsx:160 | the box is checked iff there is a row and every row id is selected |
| Selection.BatchFailureIsHidden | website-admin/src/components/UserPage.jsx:146-153 | as written, the batch error is whatever the reload leaves, whatever failed |
| Selection.BatchFailureIsHiddenExample | website-admin/src/components/ItemsPage.jsx:119-127 | as written, one failed item deletion followed by a good reload shows no error |
| Selection.BatchError | website-admin/src/components/UserPage.jsx:146-147 | the intended outcome, with the reload before the report: with failures the error is the failure text, otherwise the reload's error |
| Selection.FailureCountReadsBack | website-admin/src/components/UserPage.jsx:147 | the failure text begins "Failed to delete " followed by the number of failures |
| Text.NatToStringRoundTrip | website-admin/src/components/UserPage.jsx:147 | the decimal text of a count parses back to the count |
| Text.JoinLength | website-admin/src/components/UserPage.jsx:147 | joined details are as long as the parts plus one separator between each pair |
| UserPage.DaySuffix | website-admin/src/components/UserPage.jsx:24-32 | "th" for 4-20. "st" exactly for 1, 21 and 31, "nd" for 2 and 22, "rd" for 3 and 23 |
| UserPage.DaySuffixIsOrdinal | website-admin/src/components/UserPage.jsx:24-32 | on 1-31 the shortcut agrees with the full English ordinal rule |
| UserPage.FormatDate | website-admin/src/components/UserPage.jsx:15-35 | "N/A" for no date, the raw text when unparseable, otherwise day, suffix, month and year |
| UserPage.FormattedDayReadsBack | website-admin/src/components/UserPage.jsx:15-35 | the leading digits of a formatted date are its day |
| UserPage.ReadUsers | server/src/routes/read_users_routes.js:7-11 | an empty table is the 404 "No users found." |
| UserPage.FetchError | website-admin/src/components/UserPage.jsx:44-52 | no error iff the reply is good. Otherwise the reply's error, or "HTTP error! status: N" when that is empty |
| UserPage.WithoutAccountKeepsIds | website-admin/src/components/UserPage.jsx:75 | the rows keep distinct ids and lose only the deleted one |
| UserPage.DeleteOne | website-admin/src/components/UserPage.jsx:128-141 | one deletion of the batch fails iff its user is absent, with "User not found.", and removes exactly that id |
| UserPage.DeleteEach | website-admin/src/components/UserPage.jsx:128-144 | exactly the selected users are gone. One "User not found." failure per selected id that was absent |
| UserPage.UserPage.FetchUsers | website-admin/src/components/UserPage.jsx:38-56 | a good reply replaces the rows. A bad one keeps them and sets the error |
| UserPage.UserPage.CheckboxChange | website-admin/src/components/UserPage.jsx:95-105 | flips exactly one user id and leaves rows, visible set and error alone |
| UserPage.UserPage.SelectAllChange | website-admin/src/components/UserPage.jsx:108-115 | checked with rows makes the box checked |
| UserPage.UserPage.TogglePasswordVisibility | website-admin/src/components/UserPage.jsx:163-173 | flips one id in the visible set |
| UserPage.UserPage.PasswordCell | website-admin/src/components/UserPage.jsx:230 | the password is shown iff its id is visible, otherwise the mask |
| UserPage.UserPage.DeleteUser | website-admin/src/components/UserPage.jsx:63-92 | a confirmed delete of a present user drops it from rows, selection and visible set. A failure alerts "User not found." |
| UserPage.UserPage.DeleteSelected | website-admin/src/components/UserPage.jsx:118-157 | an empty selection only alerts. Otherwise exactly the selected users are deleted and the failures are counted. The failure text is written and then overwritten by the reload, so the error shown is the reload's own (see Findings). Both sets are cleared |
| ItemsPage.PurchasedCell | website-admin/src/components/ItemsPage.jsx:198 | "Yes" iff purchased |
| ItemsPage.PurchasedByCell | website-admin/src/components/ItemsPage.jsx:200-202 | "Not yet" when unpurchased. Otherwise the buyer, or "N/A" when there is none |
| ItemsPage.CellsAfterMarking | website-admin/src/components/ItemsPage.jsx:198-202 | after marking bought by a buyer the cell shows that buyer. After unmarking it shows "Not yet" |
| ItemsPage.FetchError | website-admin/src/components/ItemsPage.jsx:20-28 | no error iff the reply is good. Otherwise the reply's error, or "HTTP error! Status: N" when that is empty |
| ItemsPage.WithoutIdKeepsIds | website-admin/src/components/ItemsPage.jsx:53 | the rows keep distinct ids and lose only the deleted one |
| ItemsPage.DeleteOne | website-admin/src/components/ItemsPage.jsx:101-114 | one deletion of the batch fails iff its item is absent, with "Item not found.", and removes exactly that id |
| ItemsPage.DeleteEach | website-admin/src/components/ItemsPage.jsx:101-117 | exactly the selected items are gone. One "Item not found." failure per selected id that was absent |
| ItemsPage.ItemsPage.FetchItems | website-admin/src/components/ItemsPage.jsx:14-32 | a good reply replaces the rows. A bad one keeps them and sets the error |
| ItemsPage.ItemsPage.CheckboxChange | website-admin/src/components/ItemsPage.jsx:68-78 | flips exactly one item id and keeps the selection within the rows |
| ItemsPage.ItemsPage.SelectAllChange | website-admin/src/components/ItemsPage.jsx:81-88 | selects exactly the row ids, or none. Checked with rows makes the box checked |
| ItemsPage.ItemsPage.DeleteItem | website-admin/src/components/ItemsPage.jsx:40-65 | a confirmed delete of a present item drops it from rows and selection and alerts success. An absent id alerts "Item not found." and changes nothing |
| ItemsPage.ItemsPage.DeleteSelected | website-admin/src/components/ItemsPage.jsx:91-130 | an empty selection only alerts. Otherwise exactly the selected items are deleted and the failures are counted. The failure text is written and then overwritten by the reload, so no error is shown (see Findings). The selection is cleared |

## Left out

- HTTP, Express and CORS wiring.
- Mongo internals: ObjectId generation, `$set`, query operators. Ids are naturals from a counter.
- The 500 paths of the routes, since they are infrastructure failures. The one exception is an out-of-enum `schedule_type`, which fails the schema validator.
- Wall-clock time. "Now" and "today" are parameters.
- Daylight-saving time: every day has 86 400 000 ms.
- Locale formatting: month names, `toLocaleDateString`. `UserPage.DateText` takes the parsed day, month name and year as given.
- How a stored joining date becomes a `DateText`.
- The network wrappers, fetch failures ("Network error"), and non-JSON replies.
- AsyncStorage credentials, auto-login, logout navigation, rendering and styles.
- Concurrency of `Promise.all` in the batch deletes. The batch is a sequential loop of independent per-id deletions, so their order is not modelled.
- `get_all_items` returns the collection unchanged, so it is a pass-through (`ItemsPage.GetAllItems`).
- `read_users` is modelled only for its 404 on an empty table.
- The registration pages, `user_routes.js` and `auth_routes.js`. Their controllers are not part of this model.
- JSON values of the wrong type (a non-boolean `is_purchased`, non-string names). Inputs are typed.
- Text lengths are counted in characters, not UTF-16 code units.
- `date_bought` is stored as a field, as the route intends. Mongoose's strict mode would drop it, because the schema does not declare it.
- HistoryPage.SortByUpdatedDesc: proved sorted and a permutation. Stability, which `Array.prototype.sort` has, is not proved.
- Dashboard.UserStatistics: absent names count 0. The source's counters are plain objects, so a user with no items whose name is an `Object.prototype` member (`constructor`, `toString`, `valueOf`, `hasOwnProperty`, `__proto__`) reads the inherited value instead of 0. Prototype lookup is not modelled.
- Dashboard.CountUsers: counts distinct user ids, which equals `countDocuments` under the table's unique-id invariant.
- UserPage.UserPage.DeleteSelected: after every user is deleted, `read_users` answers 404. The page then keeps its stale rows, as the source does.

## Findings

| source | as written | input that shows it | evidently intended | confidence | as-written member | corrected member |
|---|---|---|---|---|---|---|
| website-admin/src/components/UserPage.jsx:146-153; website-admin/src/components/ItemsPage.jsx:119-127 | the batch delete sets the failure error, then calls the reload, which begins with `setError(null)`. The failure text is therefore overwritten before it shows | select one item id that another admin already deleted and confirm: the delete fails with "Item not found.", the reload succeeds, and the page shows no error | the failure text stays visible after the reload | not executed | Selection.BatchFailureIsHidden | Selection.BatchError |

The page classes `UserPage.UserPage` and `ItemsPage.ItemsPage` follow the source as written: their `FinishBatch` writes the failure text before the reload, and their contracts state the error left by the reload. `Selection.BatchError` states the intended order, and `Selection.FailureCountReadsBack` is proved about it.
