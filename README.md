# Table Pilot booking core, modelled in Dafny

This project models the logic of the Table Pilot restaurant-booking app that
sits behind its Supabase calls, and proves properties of it:

- **Booking service** (`booking_service.dfy`, module `BookingService`)
  - the half-hour slot grid from 11:00 to 19:30;
  - the `HH:MM` conflict test over two-and-a-half-hour sittings;
  - per-slot availability, which walks the suitable tables in fetched (name) order;
  - best-fit table choice;
  - the row that `createBooking` inserts;
  - the next upcoming reservation of a table.
- **CRM edge function** (`crm.dfy`, module `Crm`)
  - request validation and the status codes of its rejections;
  - the three-level business-id fallback;
  - the first/last name split;
  - the payload sent to the CRM.
- **Customer list** (`customers.dfy`, module `Customers`)
  - mapping the customer RPC result;
  - the fallback that groups booking rows by e-mail into one customer each;
  - the current business, which is the fixed name `"amicicoffee"`.
- **User administration** (`users.dfy`, module `Users`)
  - counting profiles by role;
  - soft delete and restore as role updates on a profile table;
  - the profile an invitation creates.
- **Booking wizard** (`booking_wizard.dfy`, module `BookingWizard`)
  - the five-step modal as a class;
  - its per-step guards;
  - the partial-data merge.
- **List filters** (`filters.dfy`, module `Filters`)
  - the user and restaurant admin filters;
  - the restaurant selector as a class, with its fallback list, search effect and selection.

Two shared modules support the rest:

- `Seqs` (`seqs.dfy`): order-preserving filter and subsequence, occurrence counts, first-occurrence de-duplication.
- `Text` (`text.dfy`): JavaScript-style trim, ASCII lower-casing, substring search, split/join on a space, code-unit string order.

Database reads are inputs: tables, bookings and profiles arrive as sequences. "Now" is a parameter.

Times are strings, as in the source. `ParseTime` follows `split(':').map(Number)`: it reads the first two `:`-separated fields, ignores any further field (so a `HH:MM:SS` value reads as `HH:MM`), and reads an empty field as 0. It returns `None` where the source computes `NaN`: a time with no `:`, or a field that is not a decimal number. Every comparison with `NaN` is false, so a booking whose times give `NaN` never conflicts.

## Model

| member | source | states |
|---|---|---|
| BookingService.FormatHMRoundTrip | src/services/supabaseBookingService.ts:94-97 | a zero-padded `HH:MM` string parses back to `hour*60+minute` |
| BookingService.FieldNumber | src/services/supabaseBookingService.ts:95 | an empty field reads as 0, a digit string as its value, and only those two give a number |
| BookingService.SecondsIgnored | src/services/supabaseBookingService.ts:94-97 | a `HH:MM` time followed by further `:` fields reads as `HH:MM` |
| BookingService.EmptyMinutesAreZero | src/services/supabaseBookingService.ts:94-97 | an empty minutes field reads as 0, so `HH:` reads as `HH:00` |
| BookingService.FormatTimeRoundTrip | src/services/supabaseBookingService.ts:94-97 | formatting a minute of the day and parsing it gives that minute back |
| BookingService.SlotGrid | src/services/supabaseBookingService.ts:69-84 | exactly 18 slots, "11:00" first and "19:30" last, slot i parses to 660+30i, strictly increasing |
| BookingService.SlotIsHourMinute | src/services/supabaseBookingService.ts:72-80 | each (hour, 0/30) pair of the nested loops appears at position 2(hour-11)+minute/30 as its `HH:MM` text |
| BookingService.GenerateTimeSlots | src/services/supabaseBookingService.ts:69-84 | the nested loops build exactly the slot grid |
| BookingService.HasTimeConflictSpec | src/services/supabaseBookingService.ts:87-107 | a conflict exists iff some booking in the list conflicts; an empty list never conflicts |
| BookingService.OverlapFacts | src/services/supabaseBookingService.ts:105 | the half-open overlap test is symmetric, and intervals that only touch do not overlap |
| BookingService.ConflictInMinutes | src/services/supabaseBookingService.ts:87-107 | for well-formed candidate times, a conflict iff some booking with parsable times overlaps [start, end) in minutes |
| BookingService.FindFreeTable | src/services/supabaseBookingService.ts:129-138 | the early-exit loop returns the first candidate table with no conflicting booking, or none |
| BookingService.CheckSlot | src/services/supabaseBookingService.ts:120-145 | the per-slot callback yields the slot's status over [slot, slot+150) |
| BookingService.GetAvailableTimeSlots | src/services/supabaseBookingService.ts:110-146 | one entry per generated slot, in grid order, each the status of that slot |
| BookingService.SlotStatusTime | src/services/supabaseBookingService.ts:140-141 | entry i carries slot i's time text |
| BookingService.FirstFreeSuitable | src/services/supabaseBookingService.ts:118-138 | filtering then scanning finds the first table in fetched order that both seats the party and is free |
| BookingService.SlotStatusSpec | src/services/supabaseBookingService.ts:118-143 | available iff some table with room is free over [slot, slot+150); then the size is that of the first such table in fetched order, otherwise absent |
| BookingService.NoSuitableTableNoSlot | src/services/supabaseBookingService.ts:118-143 | if no table is large enough, every slot is unavailable with no size |
| BookingService.OptimalTableSpec | src/services/supabaseBookingService.ts:149-159 | none iff no table seats the party; otherwise a table that seats the party, no larger than any other that does, first of least capacity in fetched order |
| BookingService.BestFitMonotone | src/services/supabaseBookingService.ts:149-159 | a smaller party never gets a larger best-fit table |
| BookingService.GetOptimalTable | src/services/supabaseBookingService.ts:149-159 | the method computes the best fit |
| BookingService.CreateBookingErrors | src/services/supabaseBookingService.ts:189-204 | "No suitable table available" iff no table seats the party; an invalid-time failure iff a table exists but the start does not parse |
| BookingService.CreateBookingRow | src/services/supabaseBookingService.ts:206-217 | the inserted row is confirmed, carries the request's fields, and sits on a best-fit table |
| BookingService.CreateBookingEnd | src/services/supabaseBookingService.ts:198-204 | the end time is the start plus 150 minutes, modulo midnight |
| BookingService.RepeatedRequestDoubleBooks | src/services/supabaseBookingService.ts:189-217 | submitting the same request again puts a second confirmed booking on the same table, date and overlapping interval |
| BookingService.AvailableSlotCommits | src/services/supabaseBookingService.ts:110-217 | a slot offered as available can be committed for the same party |
| BookingService.SixPmSlot | src/services/supabaseBookingService.ts:79-97 | slot 14 is "18:00" = 1080 minutes; its end is "20:30" |
| BookingService.SecondsBookingConflicts | src/services/supabaseBookingService.ts:87-107 | a booking stored as "18:00:00"–"20:30:00" conflicts with the 18:00 sitting |
| BookingService.ExampleTableABusy | src/services/supabaseBookingService.ts:129-135 | in the example, table "a" conflicts at 18:00–20:30 |
| BookingService.ExampleTableBFree | src/services/supabaseBookingService.ts:129-135 | in the example, table "b" is free at 18:00–20:30 |
| BookingService.ExampleSlotOffered | src/services/supabaseBookingService.ts:118-143 | in the example, 18:00 is offered to two guests with a four-seat table |
| BookingService.ExampleOptimal | src/services/supabaseBookingService.ts:149-159 | in the example, best fit chooses the two-seat table "a" |
| BookingService.ExampleCommitOverlaps | src/services/supabaseBookingService.ts:189-217 | in the example, the commit seats the party on "a", over the existing booking |
| BookingService.AvailabilityAndCommitDisagree | src/services/supabaseBookingService.ts:118-217 | availability and commit can choose different tables: the slot is offered on "b" while the row goes to the busy "a" |
| BookingService.EarlierOrder | src/services/supabaseBookingService.ts:328-334 | the sort comparator is irreflexive and transitive |
| BookingService.FirstEarliestSpec | src/services/supabaseBookingService.ts:328-336 | the head of the sorted list is a member that no other booking precedes |
| BookingService.EarlierThrough | src/services/supabaseBookingService.ts:328-334 | a booking that precedes another precedes everything that does not precede that other |
| BookingService.FirstEarliestStable | src/services/supabaseBookingService.ts:328-336 | the head is the first booking of its (date, start) group in input order, as the stable sort leaves it: every booking before it is strictly later |
| BookingService.NextReservationSpec | src/services/supabaseBookingService.ts:314-337 | none iff the table has no booking strictly after now; otherwise an upcoming booking of that table with the least (date, start) |
| Crm.StatusOf | supabase/functions/send-customer-to-crm/index.ts:312-420 | a missing API key gives 500 and every other rejection gives 400 |
| Crm.MissingFieldsSpec | supabase/functions/send-customer-to-crm/index.ts:370-398 | nothing missing iff name and e-mail are present and (new customer or restaurant id present); restaurant id is reported only for existing customers; missing names keep required-field order |
| Crm.ValidateSpec | supabase/functions/send-customer-to-crm/index.ts:312-420 | accepted iff the body parsed to an object with no missing field and the API key is set; an accepted request yields the parsed data; a missing-fields rejection lists at least one field |
| Crm.ResolveBusinessId | supabase/functions/send-customer-to-crm/index.ts:422-438 | the business id is never empty: the explicit id wins, then the restaurant id mapped through the table at lines 30-36, then the default declared there |
| Crm.SplitName | supabase/functions/send-customer-to-crm/index.ts:448-457 | the first name is the first token of the trimmed name; with a space, first + " " + last is the trimmed name and both are non-empty; without, the last name is empty |
| Text.OrNone | supabase/functions/send-customer-to-crm/index.ts:467-468 | an empty string becomes null (or undefined) and any other is kept |
| Crm.BuildPayload | supabase/functions/send-customer-to-crm/index.ts:459-489 | name, e-mail and phone are carried over; the business id is non-empty; names split as above with empty parts null; totals default to 0; an empty booking date becomes null |
| Crm.HandleRequest | supabase/functions/send-customer-to-crm/index.ts:59-89 | a blank body is rejected as invalid JSON (400); rejected iff validation fails, with its reason; otherwise the payload follows the business-id precedence |
| Customers.MapRpcCustomers | src/services/businessService.ts:104-116 | one customer per RPC row: id from customer_id, fixed business id, total spent 0, updated_at = created_at |
| Customers.FirstIndex | src/services/businessService.ts:141-143 | the position of the first booking with the given e-mail |
| Customers.BumpEntry | src/services/businessService.ts:160-165 | a repeat booking adds one to the count and keeps the later date |
| Customers.BuildCustomerMap | src/services/businessService.ts:139-168 | after the loop, the map holds one entry per e-mail seen, keyed in first-occurrence order, each the entry those rows determine |
| Customers.ValuesInOrder | src/services/businessService.ts:169 | the map's values read out in key insertion order |
| Customers.GroupCustomers | src/services/businessService.ts:139-169 | one customer per distinct e-mail, in first-occurrence order, each the entry those rows determine |
| Customers.LatestDateSpec | src/services/businessService.ts:155-165 | the tracked date is a booking date of that e-mail that no other of its booking dates exceeds |
| Customers.GroupingAddresses | src/services/businessService.ts:139-169 | the customers' e-mails are exactly the bookings' e-mails, without duplicates, in first-occurrence order |
| Customers.GroupingEntries | src/services/businessService.ts:139-169 | each entry has the fixed business id, total spent 0, its booking count, the first booking's phone, and the latest of its booking dates |
| Customers.EntryNames | src/services/businessService.ts:143-151 | first name is the first space-separated part and non-empty when present; the rest joined by spaces is the last name; empty parts are absent |
| Customers.GroupingNames | src/services/businessService.ts:143-151 | each customer's names come from the first booking seen for its e-mail |
| Customers.GroupingTotal | src/services/businessService.ts:153-162 | the booking counts sum to the number of booking rows |
| Users.CountByRole | src/services/userService.ts:143-146 | a role is a key iff some profile has it, and its count is the number of such profiles |
| Users.RoleCountsTotal | src/services/userService.ts:143-148 | the keys are the distinct roles and the counts sum to the number of profiles |
| Users.SetRole | src/services/userService.ts:74-78 | the role update touches exactly the rows with that id |
| Users.SetRoleOnlyRole | src/services/userService.ts:74-78 | the role update changes no other field |
| Users.DeleteRestoreRoundTrip | src/services/userService.ts:74-104 | delete then restore gives back the table iff every row with that id had role "user" |
| Users.ProfileTable.DeleteUser | src/services/userService.ts:74-78 | the rows with that id get role "inactive" |
| Users.ProfileTable.RestoreUser | src/services/userService.ts:100-104 | the rows with that id get role "user"; the single row is returned iff it exists |
| Users.InviteProfile | src/services/userService.ts:175-180 | the profile belongs to the new auth user, has the given role, and has name and company defaulted to "" |
| BookingWizard.Merge | src/components/BookingModal.tsx:60-62 | every supplied field overrides and every other field is unchanged |
| BookingWizard.MergeLaws | src/components/BookingModal.tsx:60-62 | merging with no fields is the identity on either side; merging twice is merging once; merges compose |
| BookingWizard.CanProceed | src/components/BookingModal.tsx:64-77 | step 1 needs a date, step 2 a non-zero party size, step 3 a start time, step 4 a name and an e-mail; any other step gives false |
| BookingWizard.CanProceedMonotone | src/components/BookingModal.tsx:60-77 | supplying more non-empty fields never blocks a step that could proceed |
| BookingWizard.Wizard.constructor | src/components/BookingModal.tsx:37-39 | the wizard starts at step 1 with no data, not submitting |
| BookingWizard.Wizard.HandleNext | src/components/BookingModal.tsx:41-45 | the step advances by one below 5 and stays at 5; it stays within 1..5 |
| BookingWizard.Wizard.HandleBack | src/components/BookingModal.tsx:47-51 | the step goes back by one above 1 and stays at 1 |
| BookingWizard.Wizard.HandleClose | src/components/BookingModal.tsx:53-58 | resets to step 1, no data, not submitting |
| BookingWizard.Wizard.UpdateBookingData | src/components/BookingModal.tsx:60-62 | the data becomes the merge of the old data and the update |
| BookingWizard.Wizard.HandleSubmit | src/components/BookingModal.tsx:79-85 | ends at step 5, not submitting, data unchanged |
| BookingWizard.Wizard.CanProceedNow | src/components/BookingModal.tsx:64-77 | the current state can proceed only from steps 1 to 4, never from the confirmation step |
| BookingWizard.NextThenBack | src/components/BookingModal.tsx:41-51 | next then back below the last step returns to the same step with the same data |
| Filters.LowerKeepsBlank | src/pages/UserManagement.tsx:103-104 | lower-casing a query keeps it blank or non-blank |
| Filters.StatusFilterSpec | src/pages/UserManagement.tsx:98-100 | the status filter keeps, in order, exactly the users that are shown or not inactive |
| Filters.FilterUsersSpec | src/pages/UserManagement.tsx:94-113 | on success, an order-preserving subsequence; no inactive user unless shown; a blank query applies only the status filter; otherwise a user is kept iff it passes the status filter and the lower-cased query is in its name, company or role |
| Filters.FilterUsersThrows | src/pages/UserManagement.tsx:103-110 | the filter throws iff the query is non-blank and some status-passing user with a null role matches neither name nor company |
| Filters.FilterUsersTotal | src/pages/UserManagement.tsx:103-110 | with every role set, the filter never throws |
| Filters.FilterUsersCaseInsensitive | src/pages/UserManagement.tsx:103-110 | queries that lower-case alike give the same result |
| Filters.FilterRestaurantsSpec | src/pages/RestaurantManagement.tsx:61-80 | an order-preserving subsequence; only active restaurants unless shown; a blank query applies only the status filter; otherwise kept iff the status filter passes and the query is in name, cuisine or address |
| Filters.ToListing | src/components/RestaurantSelector.tsx:59-66 | a fetched row keeps its fields, and an empty image URL becomes absent |
| Filters.SearchListingsSpec | src/components/RestaurantSelector.tsx:82-93 | a blank query shows the list unchanged; otherwise the listings whose name, cuisine or address contains the lower-cased query, in order |
| Filters.SearchListingsCaseInsensitive | src/components/RestaurantSelector.tsx:82-93 | queries that lower-case alike give the same result |
| Filters.AfterLoadSpec | src/components/RestaurantSelector.tsx:53-79 | the list is replaced only by a non-empty successful fetch, and a non-empty list stays non-empty |
| Filters.Selector.constructor | src/components/RestaurantSelector.tsx:30-50 | the selector starts closed and loading, with an empty query, showing the fallback restaurant |
| Filters.Selector.LoadRestaurants | src/components/RestaurantSelector.tsx:54-76 | loading ends; exactly a non-empty successful fetch replaces both the list and the shown list with the transformed rows, and anything else keeps both |
| Filters.Selector.ApplySearch | src/components/RestaurantSelector.tsx:82-93 | the search effect changes only the shown list, which becomes the search of the list by the query |
| Filters.Selector.Load | src/components/RestaurantSelector.tsx:53-93 | after the load and the search effect, loading has ended, the list is the load result, and the shown list is its search by the query |
| Filters.Selector.SetSearchQuery | src/components/RestaurantSelector.tsx:82-93 | the query is set and the shown list is the search over the restaurants |
| Filters.Selector.Select | src/components/RestaurantSelector.tsx:95-99 | the chosen restaurant is handed on, the menu closes, the query resets and the full list is shown |

## Left out

- Supabase I/O is left out: fetching tables, bookings and profiles, inserts, RPCs, the connection test, re-fetch verification and auth calls. Query results are inputs and rows are return values. `fetchTables` orders by name (`supabaseBookingService.ts:33`); the model takes the tables in the order given.
- Concurrency between clients is not modelled, including the read-then-insert race in `createBooking`. The model shows that even one client can double-book: see `RepeatedRequestDoubleBooks` and `AvailabilityAndCommitDisagree`.
- `date-fns` and the clock are not modelled: the booking date is a `yyyy-MM-dd` string, and "now" is a parameter. Time zones and daylight saving are ignored. The end time wraps at midnight, as `setHours` followed by `HH:mm` formatting does.
- BookingService.ParseTime: each field is read as empty (0) or decimal digits, and anything else is `NaN`. `Number` also accepts surrounding whitespace, a sign, a decimal point, an exponent, `0x`/`0o`/`0b` prefixes and `Infinity`. Times written that way parse in the source but give `None` here, so a booking stored in such a form never conflicts in the model.
- `Lower` folds ASCII letters only; Unicode case mapping is not modelled. `IsSpace` covers the ASCII whitespace, the no-break space, the line and paragraph separators and the byte-order mark, but not the other Unicode space separators that `trim` also removes.
- `localeCompare` and `>` on strings are modelled as code-unit order (`StrLt`), which matches them on zero-padded dates and times.
- `BookingService.GetOptimalTable`: the source sorts the suitable tables in place and takes element 0. The model scans for the first table of least capacity, which is the same element because `Array.prototype.sort` is stable. The in-place sort itself is not modelled.
- Crm.ResolveBusinessId: the lookup in `restaurantToBusinessMap` is a finite map. Keys inherited from `Object.prototype` are not modelled.
- Users.CountByRole: the counts are a finite map. In the source they live on a plain object `{}`, so a role named after an inherited member behaves differently (`userService.ts:143-146`). For `"constructor"` the count becomes the string `"function Object() { [native code] }1"`. For `"__proto__"` the assignment is ignored and the key never appears. The model counts such roles like any other.
- Crm.HandleRequest: every field of the request body is a string or absent. A truthy `customerName` that is not a string, such as `42`, makes `.trim()` throw (`index.ts:453`), and the outer catch (`index.ts:632-645`) answers 500. The model has no such input.
- `Crm.BuildPayload`: `total_bookings` and `total_spent` are integers. Fractional JSON numbers and non-numeric values other than absent ones are not modelled.
- Restaurant ratings are reals that are only copied, never computed with. Floating point is not modelled.
- The edge function's HTTP plumbing is not modelled: CORS, the `/schema` and `/test` endpoints, environment lookups other than the API-key check, the `fetch` to the CRM, and response parsing and logging.
- `Users.InviteProfile` models only the profile record. The auth-user creation and the profile insert are I/O.
- `Users.ProfileTable.RestoreUser`: `.single()` on zero rows is modelled as an error that changes nothing. With duplicate ids, the profile table's invariant excludes that case.
- `BookingWizard.Merge`: a key passed explicitly as `undefined` overrides in a JavaScript spread. The model treats it as not supplied.
- `BookingWizard.Wizard.HandleSubmit` ignores the two-second `await`, so the interleaving of other handlers during it is not modelled. The intermediate `isSubmitting = true` is not observable in the model.
- The `onClose` and `onRestaurantChange` callbacks are not modelled. `Select` returns the chosen restaurant instead.
- React state scheduling is folded into the methods: `Filters.Selector.Load` and `SetSearchQuery` re-run the search effect at once. `Load` runs it even when the fetch kept the list, where the source skips it; the shown list is then already the search of the list, so the state is the same.
- Filters.Selector: the invariant "the shown list is the search over the restaurants" is a postcondition of each method and a precondition of those that rely on it, not part of `Valid()`.
- Rendering, toasts and navigation in every page and component are not modelled.
- The following are not part of this model: `emailService.ts`, `crmService.ts`, the auth pages and guards, `TopFilterBar.tsx` (clock-based), `AdminDashboard.tsx`, `BookingConfirmation.tsx` (its reference comes from `Date.now`), and `RestaurantForm.tsx` (rating parsing is floating point).

## Notes on the code

- **Availability and commit use different tables.** Availability (`supabaseBookingService.ts:118-143`) reports the first free suitable table in name order. `createBooking` (`:189-217`) ignores existing bookings and commits to the best-fit table.
  - `AvailabilityAndCommitDisagree` shows a slot offered on a free four-seat table, while the commit lands on a busy two-seat table.
  - `AvailableSlotCommits` shows that an offered slot is always committable, just not necessarily to a free table.
- **The CRM empty-body branch cannot be reached.** The check for an empty or blank body (`index.ts:312-327`) comes after the body has already been parsed as JSON (`:59-89`). A blank body therefore always fails at the parse, so it is still rejected with 400, as "Invalid JSON in request body". `Crm.HandleRequest` models it that way.
- **The user filter can throw.** It calls `u.role.toLowerCase()` unguarded (`UserManagement.tsx:108`). With a non-blank query, a status-passing profile whose role is null throws a `TypeError` unless its name or company already matched. `Filters.FilterUsers` returns an error in that case, and `Filters.FilterUsersThrows` characterises when it does.
- **Restore is not the inverse of delete.** `restoreUser` always sets `'user'`, so delete then restore loses the admin and business roles (`Users.DeleteRestoreRoundTrip`).
