# Food-donation lifecycle, modelled in Dafny

The system connects restaurants that have surplus food with NGOs and with
volunteers who carry the food. This model covers the following parts.

- **Server handlers.** Each request is a pure step function:
  - its inputs are the stored records, the caller (`Actor`) and the request;
  - it returns `Result<Effects, HttpError>`;
  - `Effects` holds the saved donation, the notifications created and the broadcasts emitted, in order.
- **Lifecycle of a donation.** The model covers:
  - creating one (`DonationController`);
  - claiming it (`DonationController`);
  - assigning a volunteer (`UserController`);
  - status updates by the volunteer (`DonationController`, `UserController`);
  - the live-location push (`LocationRoute`).
- **Authentication and role gating.** Bearer/cookie token extraction, `protect`, `authorize` and the route tables (`AuthMiddleware`, `Routes`).
- **Notification store.** List, mark read and create (`NotificationStore`).
- **Food-location lists of a donation.** Two implementations (`FoodLocations`):
  - on the Firestore document, adding is a set union;
  - on the MongoDB (Mongoose) document, adding appends.
- **Normalisers.**
  - Registration and profile merge (`AuthController`).
  - The one-off legacy-document repair (`Cleanup`).
- **Browser logic.** List reducers and filters, urgency and risk classification, route-point selection, and the form and login rules. There is one module per component: `AvailablePickups`, `ActivePickups`, `VolunteerDashboard`, `DonationFeed`, `NotificationDropdown`, `RouteMap`, `DonationManager`, `CapacityManager`, `NgoDonationCard`, `Login`.

Shared vocabulary:
- `Domain` holds identifiers, roles, the donation record, users, notices, events and HTTP errors.
- `DonationSchema` holds the required fields and defaults of a new donation.
- `ClientLists` holds the browser's list entries.
- Generic helpers live in `Wrappers`, `Seqs` and `JsNumber`. `JsNumber` is the radix-less `parseInt` every handler calls. It skips JavaScript white space, reads a sign, and reads base 16 after a `0x` or `0X` prefix and base 10 otherwise. A round-trip lemma relates it to decimal rendering.

Conventions:
- Time is integer milliseconds, passed in as `now`.
- A save stamps `updatedAt` only when something changed. The location push always changes its path, so it always stamps.
- The caller (`Actor`) is the request user that `protect` attaches. Its `id` stands for the `req.user.id` the handlers compare with stored references (server/src/controllers/donationController.js:160). `protect` sets `uid` and spreads the stored user's fields (server/src/middleware/authMiddleware.js:42-45), so `req.user.id` exists only when the stored record has an `id` field. The model assumes it does, and that it equals the user's id.
- A request body's `status` is text or absent. An absent status clears the stored field; the model writes that as the status `Unset`.
- The donation schema's enumeration validator runs at every save (server/src/models/Donation.js:31-35). A request that writes `assigned`, `delivered` or any other text outside the five names fails its save and answers 500; a cleared status passes. For the assignment and the `delivered` completion this refuses every request the handler exists for, so the model holds each as written and as evidently intended (see "## Findings").
- A cleared status reads back as the schema default `available` when a record is loaded (server/src/models/Donation.js:34). `DonationSchema.Loaded` is that view. `Claim` is the one modelled handler whose decision it changes.
- Where the code calls `toString()` on a missing reference, the handler's `catch` answers 500. The model gives `ServerError` there.
- Each request is one atomic step. Nothing here claims race freedom: a claim reads, checks and then writes, with no conditional write.

## Model

| member | source | states |
|---|---|---|
| DonationSchema.Create | server/src/models/Donation.js:5-43 | a draft is accepted exactly when donor, title, a known food type, quantity and expiry are present; the new record has status `available`, permission `private`, no food locations, no claim and no volunteer, and carries the draft's fields; both location paths exist, `location` holding the draft's `[lng, lat]` or an empty array, `dropLocation` always an empty array |
| DonationSchema.PastExpiryAccepted | server/src/models/Donation.js:15 | an expiry already in the past is accepted: nothing checks that it lies in the future |
| DonationSchema.MissingRequiredRefused | server/src/models/Donation.js:6-15 | a draft lacking any required field is refused |
| DonationSchema.Loaded | server/src/models/Donation.js:31-35 | a loaded record whose status was cleared reads as `available`; every other status and every other field reads as stored |
| Domain.ParseFoodType | server/src/models/Donation.js:9-13 | a food-type string is accepted exactly when it names one of the five kinds, and the kind's name is that string |
| Domain.ParseStatus | server/src/models/Donation.js:31-35 | a status text is recognised exactly when it is the name of a status, and it is then that status's name |
| Domain.StatusNameInjective | server/src/models/Donation.js:31-35 | distinct statuses have distinct stored names, so a status filter on names selects exactly one status |
| DonationController.CreateDonation | server/src/controllers/donationController.js:8-38 | the new donation belongs to the caller, is `available`, takes the body's location or else the creator's, and exactly one `new_donation` carrying it is broadcast; the stored location is that point as `[lng, lat]`; a schema failure answers 500 |
| DonationController.BuildListQuery | server/src/controllers/donationController.js:43-59 | the status filter defaults to `available`; a proximity filter exists exactly when both coordinates are given, with a 10000 m default and otherwise the radix-less `parseInt(radius) * 1000`; a NaN distance is modelled as none |
| DonationController.RadiusInMetres | server/src/controllers/donationController.js:58-59 | a radius written as `k` kilometres becomes `k * 1000` metres |
| DonationController.HexRadius | server/src/controllers/donationController.js:59 | a radius `0x5` is read in base 16 as five kilometres, and `0x` is NaN, so no distance bound |
| DonationController.ListByStatus | server/src/controllers/donationController.js:47-68 | the listing holds exactly the donations whose status is the queried one, each as often as it is stored, in store order |
| DonationController.MyDonations | server/src/controllers/donationController.js:124-132 | exactly the caller's own donations, each as often as it is stored, newest first |
| DonationController.VolunteerTasks | server/src/controllers/donationController.js:137-148 | exactly the donations assigned to the caller that are `claimed` or `picked_up`, each as often as it is stored, newest first |
| DonationController.ClaimedDonations | server/src/controllers/donationController.js:203-218 | exactly the donations the caller claimed whose status is not `expired`, each as often as it is stored, most recently updated first |
| DonationController.CreatedIsListed | server/src/controllers/donationController.js:8-132 | a created donation is in the default `available` listing and in its donor's own list, and any caller can claim it |
| DonationController.Claim | server/src/controllers/donationController.js:79-119 | a missing donation is 404; a status that loads as other than `available` is 400 with no save, broadcast or notice, while a cleared status loads as `available` and is claimable; otherwise an NGO writes `claimedBy`, a volunteer writes `assignedVolunteer` (the other field untouched), any other role writes nothing, and one `donation_updated` plus one success notice to the donor follow |
| DonationController.ClaimNotRepeatable | server/src/controllers/donationController.js:87-96 | after an NGO or volunteer claim, every later claim of the saved record is refused with 400 |
| DonationController.ClearedStatusClaimable | server/src/controllers/donationController.js:87-89 | after the assigned volunteer sends a status request without a status, anyone can claim the cleared record again |
| DonationController.AdminClaimLeavesAvailable | server/src/controllers/donationController.js:91-112 | an admin claim saves the record unchanged yet still notifies the donor once |
| DonationController.StatusNotices | server/src/controllers/donationController.js:174-191 | the donor is always notified; the claiming NGO is notified as well exactly when it is set and is not the caller |
| DonationController.RequestedStatus | server/src/controllers/donationController.js:155-165 | the save accepts exactly an absent status, which clears the field, and the enumeration's five names, each as the status so named; `assigned`, `delivered` and any other text fail the save with 500 |
| DonationController.BodyStatus | server/src/controllers/donationController.js:155-164 | an absent status names the cleared field; text names a status exactly when it is one of the seven names, and then the status so named |
| DonationController.BodyStatusRoundTrip | server/src/controllers/donationController.js:155-164 | every status, sent by its name or, when cleared, sent as nothing, is the status the body names |
| DonationController.RequestedRoundTrip | server/src/controllers/donationController.js:155-165 | a status inside the enumeration, sent by its name or, when cleared, sent as nothing, is written exactly; `assigned` and `delivered` are refused with 500 |
| DonationController.UpdateTaskStatus | server/src/controllers/donationController.js:153-198 | missing is 404, no assignee is 500, another caller is 403, and `assigned`, `delivered` or any other status the save refuses is 500; otherwise the body's status is written whatever the current one (its name is the body's text, an absent one clears it, and it lies inside the enumeration), nothing else but the save time changes, and the donor is notified |
| DonationController.MissingStatusReadsDelivered | server/src/controllers/donationController.js:155-176 | a request without a status succeeds, clears the status, and tells the donor the donation was delivered |
| DonationController.AnyTargetAccepted | server/src/controllers/donationController.js:164-165 | the assigned volunteer can move a record from any status to exactly the statuses of the enumeration; `assigned` and `delivered` are 500 |
| UserController.PresenceOf | server/src/controllers/userController.js:122 | busy exactly when holding a task, available exactly when free and active, offline exactly when free and inactive |
| UserController.BuildVolunteerFilter | server/src/controllers/userController.js:55-80 | each `status` value maps to its store conditions and an unknown one adds none; without `status` the availability conditions apply only when `available` is the string `"true"` |
| UserController.NoParamsNoFilter | server/src/controllers/userController.js:55-80 | with neither parameter every volunteer matches, because the default is the boolean `true` and not the string |
| UserController.FilterAgreesWithPresence | server/src/controllers/userController.js:62-122 | the `available` and `busy` filters select exactly the volunteers shown with that status, and every volunteer shown as offline matches `offline` |
| UserController.OfflineFilterAdmitsBusy | server/src/controllers/userController.js:72-74 | the `offline` filter also selects inactive volunteers holding a task, who are then shown as busy |
| UserController.RoundedPercent | server/src/controllers/userController.js:110-117 | the score is the integer nearest to the completed share in percent, halves up: it lies in 0..100, is 100 for a full share and 0 for none |
| UserController.ReliabilityScore | server/src/controllers/userController.js:110-117 | 0 without a completed task, 100 when nothing failed, never above 100 |
| UserController.DefaultOrder | server/src/controllers/userController.js:133-137 | a permutation of the volunteers in which every available one precedes every other, and each group is ordered by rating, highest first, with a missing rating counting as 0 |
| UserController.SortVolunteers | server/src/controllers/userController.js:127-138 | a permutation: by reliability score descending, or the store's order for `distance` with coordinates, or the default order |
| UserController.GetVolunteers | server/src/controllers/userController.js:47-145 | the listing is the matching volunteers, as a multiset exactly the store's matches; by reliability score descending for `reliability`, in store order for `distance` with coordinates, else available first and each group by rating, highest first |
| UserController.Assign | server/src/controllers/userController.js:198-299 | as written: the same checks in the same order with the same answers as the intended assignment; once all pass, the save of status `assigned` fails the enumeration check and the answer is 500 with nothing saved, notified or broadcast, so no assignment ever succeeds |
| UserController.AssignRefusedAtSave | server/src/controllers/userController.js:237-239 | every request that passes the checks succeeds under the intended assignment and is 500 as written |
| UserController.AssignIntended | server/src/controllers/userController.js:198-299 | as evidently intended, with `assigned` in the enumeration: checked in order: a missing or non-volunteer user is 404, a busy or inactive volunteer is 400, a missing donation is 404, a status other than `claimed` is 400; for an NGO caller a claim without an NGO is 500 and another NGO's claim is 403. Success happens exactly when all checks pass, the claiming NGO included. It sets the volunteer and status `assigned`, gives the volunteer the task, notifies volunteer, caller and donor in that order, and broadcasts `volunteer_assigned` |
| UserController.AssignNotRepeatable | server/src/controllers/userController.js:210-229 | under the intended assignment: afterwards the volunteer is busy, so assigning them again is 400; the donation is no longer `claimed`, so assigning it again is 400 |
| UserController.AssignedDropsFromTaskList | server/src/controllers/userController.js:237-238 | under the intended assignment: the written status `assigned` is outside the present enumeration, and the volunteer's task list does not show the donation |
| UserController.NextRating | server/src/controllers/userController.js:365-366 | the updated rating never exceeds 5 and stays within 0..5 when it started there; an unset rating gives NaN, which like unset is absent to every reader |
| UserController.CompleteTask | server/src/controllers/userController.js:333-390 | as written: a non-volunteer is 403, a missing task is 404, no assignee is 500, another volunteer is 403, and `delivered` or any other status the save refuses is 500; success happens exactly for the assignee with a status the save accepts. The body's status is written (an absent one clears it) and nothing else changes; the save time moves only when the status did; no completion counts a task, frees the volunteer or notifies anyone |
| UserController.CompleteTaskIntended | server/src/controllers/userController.js:333-390 | as evidently intended, with `delivered` in the enumeration: a non-volunteer is 403, a missing task is 404, no assignee is 500, another volunteer is 403, text naming no status is 500, and success happens exactly for the assignee with a named status. The body's status is written (an absent one clears it) and nothing else changes; the save time moves only when the status did. Only `delivered` adds one completed task, frees the volunteer and notifies the claiming NGO once; any other status leaves the volunteer alone and notifies nobody |
| UserController.DeliveredRefused | server/src/controllers/userController.js:353-362 | the assignee's `delivered` completion succeeds under the intended handler and is 500 as written |
| UserController.MissingStatusCountsNothing | server/src/controllers/userController.js:336-362 | a completion without a status clears the status, succeeds, and neither counts a task nor notifies anyone |
| UserController.NotesNotStored | server/src/controllers/userController.js:353-356 | the delivery notes go to a path the donation schema lacks, so two completions differing only in their notes have the same outcome |
| UserController.DeliveryFreesVolunteer | server/src/controllers/userController.js:359-362 | under the intended completion: after `delivered` an active volunteer is available again |
| UserController.VolunteerStats | server/src/controllers/userController.js:395-434 | non-volunteers get 403 and volunteers always succeed; deliveries and in-progress counts are the caller's `delivered` and `assigned`/`picked_up` donations and together never exceed the donations; the success rate is within 0..100, 0 when nothing was delivered or failed, 100 when nothing failed |
| UserController.DisjointCounts | server/src/controllers/userController.js:404-412 | no donation is counted both as delivered and as in progress |
| UserController.DeliveryCounted | server/src/controllers/userController.js:353-412 | under the intended completion: completing an in-progress task with `delivered` raises the next delivered count by one and lowers the in-progress count by one |
| NotificationStore.WithDefaults | server/src/controllers/notificationController.js:44 | an omitted type is `info`; the other arguments pass through unchanged |
| NotificationStore.CreateNotification | server/src/controllers/notificationController.js:44-56 | a successful create appends one unread notification with the given fields; a failed one leaves the store as it was and is not reported to the caller |
| NotificationStore.Survivors | server/src/controllers/notificationController.js:44-56 | the records left by a fan-out are unread, stamped now, at most one per notice; none when every write fails, every notice's record in order when none fails |
| NotificationStore.SurvivorsSnoc | server/src/controllers/notificationController.js:44-56 | one more notice extends the records by its own, unless its write fails |
| NotificationStore.DeliverAll | server/src/controllers/notificationController.js:44-56 | the store afterwards is the earlier store followed by the records of exactly the notices whose write went through, in order |
| NotificationStore.List | server/src/controllers/notificationController.js:6-16 | only the caller's notifications, newest first, as many as they have up to 20, each stored at most as often as in the store; any of the caller's notifications left out is no newer than every one listed |
| NotificationStore.FindById | server/src/controllers/notificationController.js:23 | finds the first notification with the id, or reports that none has it |
| NotificationStore.MarkAsRead | server/src/controllers/notificationController.js:21-41 | a missing notification is 404, someone else's is 401, one without a recipient is 500; the caller's own always succeeds, and then only that notification changes, and only its `read` flag, to true |
| NotificationStore.MarkAsReadIdempotent | server/src/controllers/notificationController.js:33-34 | marking twice gives the same store as marking once |
| NotificationStore.FindByIdSameIds | server/src/controllers/notificationController.js:23 | the lookup depends only on the ids, so marking read does not move it |
| LocationRoute.PushLocation | server/src/routes/locationRoutes.js:7-36 | missing is 404, no assignee is 500, another caller is 403, a missing coordinate is 500; success replaces the trail with exactly the reported point, stamps the save time even when the point is unchanged, leaves the rest of the record as it was, and broadcasts `volunteer_location` with the same id and coordinates |
| LocationRoute.LastPushWins | server/src/routes/locationRoutes.js:20-21 | after two pushes only the second point remains, and nothing but the trail and save time differs from the original record |
| FoodLocations.Union | server/src/controllers/foodLocationController.js:24-27 | adding a present point changes nothing; otherwise the point is appended |
| FoodLocations.UnionIsSetLike | server/src/controllers/foodLocationController.js:24-27 | a union never creates a duplicate, and a second union of the same point changes nothing |
| FoodLocations.RemoveByIndex | server/src/controllers/foodLocationController.js:72-80 | an index whose radix-less `parseInt` lies in the list's range removes exactly that entry; any other index, NaN included, removes nothing |
| FoodLocations.RemoveKeepsOrder | server/src/controllers/foodLocationController.js:72-80 | an in-range removal shortens the list by one and keeps the others in order |
| FoodLocations.OutOfRangeRemovesNothing | server/src/controllers/foodLocationController.js:72-82 | negative, too large and NaN indices, `0x` and `0xZ` among them, leave the list as it was |
| FoodLocations.HexIndexRemovesSecond | server/src/controllers/foodLocationController.js:72-75 | the index `0x1` is read in base 16 and removes the second entry |
| FoodLocations.AddToDoc | server/src/controllers/foodLocationController.js:6-35 | missing is 404; a caller other than the donor is 403; for the donor a missing coordinate is 500; otherwise the stored and returned list is the union with the point |
| FoodLocations.GetFromDoc | server/src/controllers/foodLocationController.js:40-53 | missing is 404; an absent list reads as empty |
| FoodLocations.RemoveFromDoc | server/src/controllers/foodLocationController.js:58-87 | missing is 404; a caller who is neither the donor nor an admin is 403, and the donor or an admin succeeds; an in-range index is removed and written, otherwise nothing is written, and the list is returned either way |
| FoodLocations.DocAddThenRemoveLast | server/src/controllers/foodLocationController.js:24-80 | adding a new point and removing the last index gives back the original list |
| FoodLocations.AddToDonation | server/src/models/FoodLocation.js:7-29 | missing is 404; a caller other than the donor is 403; for the donor a missing coordinate is 500; otherwise the point is appended, even when already present, so the length grows by one, and nothing else but the save time changes |
| FoodLocations.GetFromDonation | server/src/models/FoodLocation.js:34-47 | missing is 404; otherwise the stored list |
| FoodLocations.RemoveFromDonation | server/src/models/FoodLocation.js:52-75 | missing is 404; a caller who is neither the donor nor an admin is 403, and the donor or an admin succeeds; an in-range index is spliced out and the record saved with the save time; otherwise the record is unchanged |
| FoodLocations.DonationAddThenRemoveLast | server/src/models/FoodLocation.js:21-68 | appending any point and removing the last index gives back the original list |
| FoodLocations.VariantsDifferOnRepeat | server/src/models/FoodLocation.js:21 | on a repeated point the union keeps one copy while the append adds a second |
| AuthMiddleware.IndexOf | server/src/middleware/authMiddleware.js:12 | the first position of the character, or none exactly when it does not occur |
| AuthMiddleware.SecondField | server/src/middleware/authMiddleware.js:12 | `split(" ")[1]`: undefined exactly when there is no space, and never contains a space |
| AuthMiddleware.ExtractToken | server/src/middleware/authMiddleware.js:8-21 | a header starting with `Bearer` supplies the token, and then the cookie is never read; otherwise the cookie supplies it; an empty token counts as none |
| AuthMiddleware.BearerRoundTrip | server/src/middleware/authMiddleware.js:8-12 | the header `Bearer t` yields exactly `t`, whatever the cookie |
| AuthMiddleware.BareBearerIgnoresCookie | server/src/middleware/authMiddleware.js:8-21 | a bare `Bearer` header yields no token even when a cookie is set |
| AuthMiddleware.Protect | server/src/middleware/authMiddleware.js:4-52 | every failure is 401; success happens exactly when a token exists, verifies and names a stored user; the request user is the stored fields plus `uid`, with stored fields winning |
| AuthMiddleware.Authorize | server/src/middleware/authMiddleware.js:55-64 | passes exactly when the stored role names a listed role; otherwise 403 |
| Domain.ParseRole | server/src/middleware/authMiddleware.js:57 | a role string is recognised exactly when it names a role |
| Routes.Gate | server/src/routes/userRoutes.js:25-32 | authentication runs first and its failure is 401; after it succeeds the only failure is 403, from a route's role list admitting only those roles; a route without one admits every authenticated caller |
| Routes.GateFollowsTable | server/src/routes/donationRoutes.js:11-19 | an authenticated caller passes exactly when the route's table admits its role |
| Routes.RoleTable | server/src/routes/donationRoutes.js:11-19 | create: restaurant or admin; claim: NGO, volunteer or admin; tasks and status: volunteer; claimed: NGO; listing and own donations: anyone signed in |
| Routes.NoTokenIsUnauthorized | server/src/routes/userRoutes.js:25-32 | a request without a usable token is 401 on every route, never 403 |
| AuthController.RegisterLocation | server/src/controllers/authController.js:29-35 | the stored point is `[longitude, latitude]` when both are truthy, otherwise the origin |
| AuthController.ZeroCoordinateFallsBack | server/src/controllers/authController.js:30 | a zero coordinate makes the whole point fall back to the origin |
| AuthController.RegisterUser | server/src/controllers/authController.js:15-69 | an email already on file is 400 and creates nothing; otherwise a body without a password is 500 (the hashing throws) and creates nothing; otherwise the user holds the body's fields, the hashed password and the normalised location |
| AuthController.RegisterTwiceRefused | server/src/controllers/authController.js:19-23 | after a registration the same email is refused |
| AuthController.UpdateProfile | server/src/controllers/authController.js:134-176 | a missing user is 404; name, phone and address change only to truthy values; capacity keys from the body overwrite and other stored keys stay; the password changes only when supplied; nothing else changes |
| AuthController.UpdateProfileStable | server/src/controllers/authController.js:138-154 | an update with nothing truthy changes nothing; repeating an update changes nothing more except the stored hash of a supplied password, which is hashed again |
| Cleanup.Fix | server/cleanup-data.js:16-26 | each undefined field gets its placeholder, and a null or present field is kept |
| Cleanup.FixCount | server/cleanup-data.js:28-31 | 0 exactly when no document needs a fix |
| Cleanup.CleanupDonations | server/cleanup-data.js:3-45 | the count is the number of documents missing donor or title; the commit happens exactly when it is positive; afterwards no document needs a fix and untouched ones are as they were |
| Cleanup.CleanupTwice | server/cleanup-data.js:34-39 | a second run on the repaired data fixes nothing and commits nothing |
| Cleanup.NullIsNotMissing | server/cleanup-data.js:17-23 | a null donor or title is not repaired |
| ClientLists.WithoutId | client/src/components/volunteer/AvailablePickups.jsx:149 | the list minus exactly the entries with that id; an absent id changes nothing |
| ClientLists.WithoutIdIdempotent | client/src/components/ngo/DonationFeed.jsx:157-159 | removing an id twice is removing it once |
| ClientLists.WithoutIdCommutes | client/src/components/ngo/DonationFeed.jsx:146-159 | removals of two ids give the same list in either order |
| ClientLists.ReplaceById | client/src/components/volunteer/AvailablePickups.jsx:127 | entries with the item's id become the item; all others are unchanged |
| ClientLists.ReplaceByIdFacts | client/src/components/ngo/ActivePickups.jsx:129-138 | an unknown id changes nothing, replacing twice equals replacing once, and the item is listed afterwards exactly when its id was |
| AvailablePickups.UrgencyOf | client/src/components/volunteer/AvailablePickups.jsx:21-29 | high below 2 h to expiry, medium from 2 h to below 6 h, low from 6 h, stated in milliseconds |
| AvailablePickups.OnNewDonation | client/src/components/volunteer/AvailablePickups.jsx:119-121 | the new item is first and the rest keep their order |
| AvailablePickups.OnDonationUpdated | client/src/components/volunteer/AvailablePickups.jsx:123-129 | a non-available update removes that id; an available one replaces the entries with that id and keeps all others |
| AvailablePickups.FilteredPickups | client/src/components/volunteer/AvailablePickups.jsx:134-141 | rendering throws exactly when some entry's title misses the query and its donor is an unpopulated reference or a populated user without a name; otherwise an item is shown exactly when its type passes the filter and the query occurs, ignoring case, in its title or its donor's name, each shown item as often as it is listed, in list order |
| AvailablePickups.EmptyQueryFiltersByTypeOnly | client/src/components/volunteer/AvailablePickups.jsx:136-139 | an empty query never throws and hides nothing beyond the type filter |
| AvailablePickups.BroadcastEntryBreaksSearch | client/src/components/volunteer/AvailablePickups.jsx:119-141 | a `new_donation` entry carries its donor as an unpopulated reference, so any search its title misses throws |
| AvailablePickups.AfterAccept | client/src/components/volunteer/AvailablePickups.jsx:143-156 | a successful accept removes exactly that id; a failed one keeps the list |
| ActivePickups.StatusColour | client/src/components/ngo/ActivePickups.jsx:10-19 | delivered and completed share green; exactly the unknown statuses are grey |
| ActivePickups.OnUpdate | client/src/components/ngo/ActivePickups.jsx:128-138 | replaces the entry with the same id; an unknown id leaves the list as it was |
| ActivePickups.FilteredPickups | client/src/components/ngo/ActivePickups.jsx:148-154 | each tab selects exactly its pickups, each as often as it is listed, in list order; an unknown tab selects all |
| ActivePickups.StatsOf | client/src/components/ngo/ActivePickups.jsx:156-160 | the total is the list size, and the active and urgent counts are the sizes of those tabs |
| ActivePickups.DeliveredCanBeUrgent | client/src/components/ngo/ActivePickups.jsx:151-152 | a delivered pickup past its expiry is listed under both completed and urgent |
| VolunteerDashboard.AvailableTasks | client/src/components/volunteer/VolunteerDashboard.jsx:24-27 | exactly the fetched claimed donations that have no volunteer, each as often as fetched, in fetched order |
| VolunteerDashboard.FindById | client/src/components/volunteer/VolunteerDashboard.jsx:44 | finds an entry with the id exactly when one is listed |
| VolunteerDashboard.Accept | client/src/components/volunteer/VolunteerDashboard.jsx:40-53 | the task leaves the offered list and the looked-up entry goes to the front of the volunteer's list, undefined when it was not offered |
| VolunteerDashboard.NextStatus | client/src/components/volunteer/VolunteerDashboard.jsx:105 | `picked_up` exactly after `claimed`, otherwise `completed` |
| VolunteerDashboard.LabelMatchesRequest | client/src/components/volunteer/VolunteerDashboard.jsx:104-105 | the label says "Mark Picked Up" exactly when `picked_up` is requested; "Mark Delivered" requests `completed` |
| DonationFeed.FeedQuery | client/src/components/ngo/DonationFeed.jsx:121-140 | radius 50 always; stored `[lng, lat]` is sent as `lat` then `lng`; without a location, the fixed fallback point |
| DonationFeed.EmptyCoordinatesSendUndefined | client/src/components/ngo/DonationFeed.jsx:125-127 | an empty stored array is used anyway and sends both coordinates as undefined |
| DonationFeed.FeedQueryReadsBack | client/src/components/ngo/DonationFeed.jsx:125-127 | for every stored array of two or more entries, the sent `lat` and `lng` read back as that `[lng, lat]` pair; a shorter array sends an undefined `lat` |
| DonationFeed.AfterAccept | client/src/components/ngo/DonationFeed.jsx:146-155 | the item is removed only when the accept is confirmed and the claim succeeds |
| DonationFeed.AfterDecline | client/src/components/ngo/DonationFeed.jsx:157-159 | decline removes exactly that id |
| NotificationDropdown.Unread | client/src/components/common/NotificationDropdown.jsx:16 | 0 exactly when every notification is read, never more than the list |
| NotificationDropdown.MarkLocally | client/src/components/common/NotificationDropdown.jsx:42 | entries with the id become read; all others are unchanged |
| NotificationDropdown.Decrement | client/src/components/common/NotificationDropdown.jsx:43 | one less, floored at zero |
| NotificationDropdown.MarkKeepsCounter | client/src/components/common/NotificationDropdown.jsx:38-47 | marking an unread item whose id occurs once keeps the counter equal to the unread count |
| NotificationDropdown.MarkingReadItemUndercounts | client/src/components/common/NotificationDropdown.jsx:42-43 | marking an already-read item still lowers the counter, which then undercounts by one |
| RouteMap.SwapInvolutive | client/src/components/volunteer/RouteMap.jsx:109-112 | turning a point around twice gives it back |
| RouteMap.FromStored | server/src/models/Donation.js:16-25 | a stored donation reaches the map with both coordinate arrays present, its status's name and no `id` |
| RouteMap.Pickup | client/src/components/volunteer/RouteMap.jsx:103-112 | none exactly when there is no coordinate array (the loading text); otherwise `[coordinates[1], coordinates[0]]`, both numbers exactly when the array has two entries or more |
| RouteMap.Drop | client/src/components/volunteer/RouteMap.jsx:114-120 | the drop coordinate array whenever it exists, even empty, else the claimer's, each read as `[c[1], c[0]]`; none exactly when neither array exists |
| RouteMap.StoredDropIsUndefined | client/src/components/volunteer/RouteMap.jsx:103-120 | for every created donation the drop point is undefined in both coordinates and the claimer's location is never used; created without a location, the pickup point is undefined too rather than the loading text |
| RouteMap.Waypoints | client/src/components/volunteer/RouteMap.jsx:21-40 | pickup to drop when the drop is known, else volunteer to pickup, else no route; any route includes the pickup |
| RouteMap.ResolveLocation | client/src/components/volunteer/RouteMap.jsx:126-143 | a point more than 0.1 from the origin in either component, a missing address or a failed lookup keeps the point; otherwise the lookup's hit replaces it |
| RouteMap.UndefinedPointIsGeocoded | client/src/components/volunteer/RouteMap.jsx:126-143 | an undefined point is not meaningful, so with an address and a lookup hit it is replaced by the hit |
| RouteMap.ResolveStable | client/src/components/volunteer/RouteMap.jsx:126-143 | resolving again with a meaningful hit changes nothing more |
| RouteMap.PickupAddress | client/src/components/volunteer/RouteMap.jsx:148 | the donor's address when truthy; else the donor's city followed by ", India" when truthy; else "India" |
| RouteMap.OnVolunteerLocation | client/src/components/volunteer/RouteMap.jsx:160-167 | the marker moves exactly when the broadcast id equals the shown donation's `id`; an undefined `id` equals none |
| RouteMap.UndefinedIdIgnoresBroadcasts | client/src/components/volunteer/RouteMap.jsx:162 | a fetched donation carries no `id` field, so no broadcast moves its marker |
| RouteMap.GpsGate | client/src/components/volunteer/RouteMap.jsx:171-172 | positions are sent exactly when geolocation exists and the status is absent or neither completed nor available |
| DonationManager.ShelfLifeHours | client/src/components/restaurant/DonationManager.jsx:25 | 4 h for cooked, 24 h for non-veg, 48 h otherwise |
| DonationManager.Suggest | client/src/components/restaurant/DonationManager.jsx:24-31 | the suggested expiry is now plus the shelf life cut down to the minute; high urgency exactly below 6 h |
| DonationManager.HighOnlyForCooked | client/src/components/restaurant/DonationManager.jsx:25-29 | only cooked food is suggested as high urgency |
| DonationManager.OnInput | client/src/components/restaurant/DonationManager.jsx:19-33 | the field takes the value; the suggestion is recomputed exactly when the field is the food type |
| DonationManager.ApplySuggestion | client/src/components/restaurant/DonationManager.jsx:35-40 | copies the suggested expiry and clears the suggestion; with none, nothing changes |
| DonationManager.ApplyOnce | client/src/components/restaurant/DonationManager.jsx:35-40 | applying twice equals applying once |
| DonationManager.AfterSubmit | client/src/components/restaurant/DonationManager.jsx:42-50 | a successful post resets the form to empty fields with food type veg |
| CapacityManager.Load | client/src/components/ngo/CapacityManager.jsx:19-29 | each field falls back to its default when absent or zero; without a stored capacity nothing changes |
| CapacityManager.ZeroMaxShowsDefault | client/src/components/ngo/CapacityManager.jsx:22-24 | a stored maximum of 0 shows 100 and 500 |
| CapacityManager.OnChange | client/src/components/ngo/CapacityManager.jsx:31-33 | the field stores `parseInt` of the input, or 0 when that is NaN |
| CapacityManager.OnChangeParses | client/src/components/ngo/CapacityManager.jsx:32 | a typed number is stored as itself; text without digits is stored as 0 |
| CapacityManager.AboveExact | client/src/components/ngo/CapacityManager.jsx:50-51 | for a positive maximum, the percentage exceeds `t` exactly when `100 * used > t * max` |
| CapacityManager.UsageColour | client/src/components/ngo/CapacityManager.jsx:49-54 | red above 90 %, orange above 70 % up to 90 %, emerald otherwise; with a zero maximum red exactly when usage is positive |
| CapacityManager.RiskLevel | client/src/components/ngo/CapacityManager.jsx:56-61 | critical above 90 %, high above 75 % up to 90 %, normal otherwise |
| CapacityManager.ColourAndRiskDisagree | client/src/components/ngo/CapacityManager.jsx:49-61 | at 72 % the bar is orange while the risk reads normal |
| CapacityManager.BarWidth | client/src/components/ngo/CapacityManager.jsx:92 | the bar never exceeds 100 %, and is exactly 100 % when usage reaches the maximum |
| CapacityManager.Recommend | client/src/components/ngo/CapacityManager.jsx:306-314 | pause exactly when the cold-storage forecast exceeds the maximum |
| CapacityManager.WarningMatchesRecommendation | client/src/components/ngo/CapacityManager.jsx:279-314 | the overflow warning shows exactly when pausing is recommended; the defaults show neither |
| NgoDonationCard.Safe | client/src/components/ngo/NGODonationCard.jsx:9-20 | missing or empty fields take their defaults: title "Untitled Donation", permission private, no approvals |
| NgoDonationCard.CurrentOption | client/src/components/ngo/NGODonationCard.jsx:25-34 | the option whose value is the permission, else Private |
| NgoDonationCard.MissingPermissionShowsPrivate | client/src/components/ngo/NGODonationCard.jsx:14-34 | a missing or unknown permission shows Private |
| NgoDonationCard.ShownApprovals | client/src/components/ngo/NGODonationCard.jsx:167-173 | exactly the existing entries that name a volunteer, in list order |
| NgoDonationCard.ShownApprovalsCounts | client/src/components/ngo/NGODonationCard.jsx:167-173 | each drawn approval appears exactly as often as its entry occurs in the list |
| NgoDonationCard.HeadingCountsSkippedEntries | client/src/components/ngo/NGODonationCard.jsx:164-173 | the heading counts an entry that is not drawn |
| NgoDonationCard.StatusLabel | client/src/components/ngo/NGODonationCard.jsx:197 | the approval's status, or `pending` when it has none |
| NgoDonationCard.PermissionRequest | client/src/components/ngo/NGODonationCard.jsx:40-57 | a change is sent exactly for a donation with an id, once confirmed, with a handler present |
| NgoDonationCard.ApprovalRequest | client/src/components/ngo/NGODonationCard.jsx:59-73 | a decision is sent exactly with a donation id, a volunteer id and a handler present |
| Login.AfterSignIn | client/src/pages/auth/Login.jsx:25-33 | the dashboard opens exactly when the account's role is the selected one; otherwise the message names the account's role |
| Login.ErrorMessage | client/src/pages/auth/Login.jsx:37-47 | credential codes give the credential message, the rate-limit code the retry message, then the server message, then the error message, then the default; never empty |
| Login.MessagePriority | client/src/pages/auth/Login.jsx:39-46 | a credential code hides the server's message; an empty server message gives way to the error's own |
| Login.MessageSources | client/src/pages/auth/Login.jsx:37-47 | the message is always a fixed text or a message the error carried, and a server message reaches the user only for an error without a handled code |
| JsNumber.ParseInt | server/src/controllers/foodLocationController.js:72 | NaN exactly when no digit of the base follows the white space, the optional sign and the optional `0x` prefix; negative only after a minus sign |
| JsNumber.ParseShow | server/src/controllers/foodLocationController.js:72 | parsing a number's decimal rendering gives the number back |
| JsNumber.SpaceIgnored | server/src/controllers/foodLocationController.js:72 | leading JavaScript white space of any kind does not change the result |
| JsNumber.HexPrefix | server/src/controllers/donationController.js:59 | after `0x` the hexadecimal digits are read in base 16, and `0x` alone is NaN |
| JsNumber.HexExamples | server/src/models/FoodLocation.js:64 | `0x1` is 1 and `0x10` is 16 |
| JsNumber.HexWithoutDigits | server/src/models/FoodLocation.js:64 | `0x` and `0xZ` are NaN |
| JsNumber.NoBreakSpaceSkipped | server/src/controllers/foodLocationController.js:72 | a no-break space before `1` is skipped and gives 1 |
| Seqs.NewestMatching | server/src/controllers/notificationController.js:8-10 | the matching elements, newest first, as many as match up to the limit, each at most as often as it matches; any matching element left out is no newer than every one kept |
| Seqs.FilterCounts | client/src/components/ngo/ActivePickups.jsx:148-154 | a filter keeps each element that passes exactly as often as it occurs, drops every other, and keeps their order |
| Seqs.SortDesc | server/src/controllers/donationController.js:126 | a permutation ordered by key, largest first; the order among equal keys is not stated |
| Seqs.CountUpdate | server/src/controllers/userController.js:404-412 | replacing one element changes a count by what the old and the new element contribute |

## Left out

- Storage, transport and sockets are left out.
  - Database reads and writes, socket emission and subscription, and HTTP clients are not modelled. Broadcasts and notifications are output values.
  - Whether a default applied on load is written back by a later save is not modelled. The model applies the status default only where a handler decides on it (`Claim`); a cleared record in a listing shows as cleared.
  - The geospatial `$near` proximity filter is not modelled. Listings are modelled by their status and ownership conditions only.
  - The geospatial indexes on both coordinate arrays are not modelled. The model assumes the store accepts a record whose coordinate array is empty. The `type: 'Point'` default of both location paths is not modelled, because nothing in the model reads it.
  - An absent real-time server (`io`) is not modelled: every broadcast is assumed to go out.
- Concurrency is left out: each request is one atomic step. Two claims that read the same record can both pass the status check in the code, and the model claims nothing about that race.
- Cryptography and external services are parameters, not models.
  - Token verification is a map from token to user id.
  - Password hashing is the hash passed in.
  - Geocoding is the lookup result passed in.
  - Route distance and time formatting and the road router are left out.
- Populated references are parameters. Examples: the donor's name in the assignment message, and the caller's own user record when a task is completed.
- `updateVolunteerStatus` and `getVolunteerCurrentTask` (server/src/controllers/userController.js:150-193, 304-328) are modelled only as gated routes, not as handlers.
- `loginUser`, `getMe`, `logoutUser` and the analytics handlers are outside the donation lifecycle and are not modelled.
- Timers and other browser effects are not modelled. This covers:
  - the refetch after a `donation_updated` event in ActivePickups;
  - the refetch after an accept or a status update in VolunteerDashboard (client/src/components/volunteer/VolunteerDashboard.jsx:48, 58). Its result replaces the lists that `VolunteerDashboard.Accept` computes, so `Accept` describes the lists only until that refetch returns;
  - the sign-out call and artificial delay in Login;
  - alerts and the success banner.
- `AvailablePickups.FilteredPickups`: a throw while rendering is the result `None`. What the page shows after it is not modelled.
- Text case mapping is ASCII only; `toLowerCase`/`toUpperCase` on other letters is not modelled.
- `CapacityManager.Load`: capacity values are integers. Non-numeric stored values and fractional numbers are not modelled.
- The storage forecast bar colour (client/src/components/ngo/CapacityManager.jsx:297) only colours a bar and carries no warning. It is left out.
- Display-only defaults of the NGO card are left out: description, quantity, donor, claimer, visibility list and managing NGO.
- The suggestion's time-window text is left out.
- `UserController.NextRating`: `None` stands both for an unset rating and for the NaN the code computes from one. Every reader of the rating (`|| 0`, `|| 5`) treats the two alike.
- `UserController.NextRating`: exact rational arithmetic. The code's rounding to two decimals with `toFixed(2)` is not modelled, so the stored value can differ in the third decimal.
- `UserController.RoundedPercent`: exact rational rounding. The code divides and multiplies in floating point, which can land just below a `.5` boundary and round down.
- `UserController.ReliabilityScore`: the same idealisation as RoundedPercent.
- `UserController.VolunteerStats`: the weighted reliability score is rounded in exact arithmetic. Only the counts and the success-rate bounds are stated.
- `CapacityManager.UsageColour`: percentages are exact rationals. A floating-point quotient can differ from the exact one at a threshold.
- `CapacityManager.RiskLevel`: the same idealisation as UsageColour.
- `DonationFeed.FeedQuery`: query values are modelled as numbers, literals or undefined. JavaScript's number-to-text rendering is not modelled.
- `UserController.AssignNotRepeatable`: stated for `AssignIntended`. As written no assignment succeeds (`AssignRefusedAtSave`), so there is nothing to repeat.
- `UserController.DeliveryFreesVolunteer`: stated for `CompleteTaskIntended`. As written a `delivered` completion is 500 and frees no one (`DeliveredRefused`).
- `UserController.DeliveryCounted`: stated for `CompleteTaskIntended`. As written a `delivered` completion is 500, saves nothing, and so moves neither count (`DeliveredRefused`).
- `AuthController.RegisterUser`: the role is a known role. A free-form role string is not modelled. The never-taken "invalid user data" branch (server/src/controllers/authController.js:62-64) is omitted.
- `FoodLocations.AddToDoc`: a coordinate is either absent or a number. A present `null` or non-numeric value, which Firestore stores as given, is not modelled.
- `FoodLocations.AddToDonation`: the same. The code's schema casts a numeric string and refuses other values, and neither path is modelled.
- `LocationRoute.PushLocation`: the same as AddToDonation.
- `JsNumber.ParseInt`: the value is an exact integer. For numerals beyond 2^53 the code's double rounds, and an `Infinity` result is not modelled.
- `RouteMap.OnVolunteerLocation`: positions sent for a fetched donation go to the id `undefined`. The server then fails its id cast with 500, and that request is not modelled.

## Findings

| source | as written | input that shows it | evidently intended | confidence | as-written member | corrected member |
|---|---|---|---|---|---|---|
| server/src/controllers/userController.js:237-239 | the handler sets status `assigned`, which the schema's enumeration (server/src/models/Donation.js:33) lacks, then saves; validation fails, and the catch answers 500 before the volunteer, the notifications or the broadcast are touched | an active volunteer with no task, a `claimed` donation, and the NGO that claimed it as caller | the donation is assigned, the volunteer gets the task, three notifications and one `volunteer_assigned` follow | high; not executed | UserController.AssignRefusedAtSave | UserController.AssignIntended |
| server/src/controllers/userController.js:353-362 | the handler writes the body's `delivered`, which the enumeration lacks, then saves; validation fails and answers 500, so the branch that counts the task, frees the volunteer and notifies the NGO never runs | the assigned volunteer completing the task with status `delivered` | the completion succeeds, counts one task, frees the volunteer and notifies the claiming NGO | high; not executed | UserController.DeliveredRefused | UserController.CompleteTaskIntended |
