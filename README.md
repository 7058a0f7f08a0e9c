# A verified model of a medication-adherence tracker

This project is a Dafny model of the server-side rules of an Express/Mongoose
medication tracker, plus two pure helpers of its browser client. Patients
register medications and get a 30-day batch of reminders for each. They mark
reminders taken or snooze them, and their adherence is rolled up into
percentages. Doctors issue prescriptions, whose Active/Expired status is
derived from the expiry date when a prescription is created, listed and
updated. Pharmacists keep an inventory with low-stock and expiry alerts.
Every role has an analytics view. There is also a drug-interaction check
against a fixed five-entry table, a role-authorization middleware, and the
registration and login guards.

The model is organised as follows.

- `Common` holds the shared vocabulary:
  - optional request fields, and handler outcomes (`Result`) with their HTTP status codes;
  - the closed set of four roles;
  - integer date arithmetic: dates are milliseconds since the epoch, UTC, and a day is 86 400 000 ms;
  - the rounded percentage, lower-casing, and integer rendering.
- `Models` holds the four Mongoose schemas as datatypes, with their enums, defaults and bounds. It also holds the User record.
- `Store` holds the document store, the model's own stand-in for the MongoDB collections: a class `Db` with one `map` per collection and one id counter, plus the filtered `find` (`IdsWhere`/`Select`) in creation order.
- Handlers that change the store are methods over `Db`. Their `modifies` clauses name the collections they touch, and each handler is proved equal to a pure reply function, sometimes with a next-state function as well. The properties the source promises are lemmas about those functions.
- Loops of the source are `for`/`while` loops with invariants, each tied to a specification function:
  - the 30-day generator loop;
  - the prescription resolver loop;
  - the doctor histogram's two loops;
  - the nested interaction loops;
  - the batch insert.
- `Reminders`, `Prescriptions`, `Analytics`, `Medications`, `Auth` and `Inventory` follow the controllers of the same names.
- `Interactions` follows the interaction controller, `RoleGuard` the middleware, and `Frontend` the client's `formatTime` and `hasRole`.

"Now" is a parameter wherever the source reads the clock, and so is the password check. The interaction table is a parameter too; the service's own table is `Interactions.Table`.

Where the code and the design description of the system disagree, the model follows the code:

- `getPrescription` returns the stored status without resolving it (`Prescriptions.SingleReadMayBeStale`).
- An update that sends `status` can re-activate a prescription whose expiry has passed (`Prescriptions.UpdateStatusFieldOverridesExpiry`).
- Pharmacists and Admins may delete any prescription; only the route keeps them from updating (`Prescriptions.DeleteRoles`).
- A medication's owner may be changed by an update (`Medications.UpdateCanTransferOwnership`).
- The two expiry tests differ: the inventory listing's test, and the analytics view's test "before now" (`Analytics.ExpiredWithinADay`).
- The doctor histogram reads a date field the schema does not have (see Findings).

Role gates that exist only on a route are a `requires` on the handler's model:

- Patient for the medication routes, `backend/routes/medicationRoutes.js:17-21`;
- Patient for the reminder routes, `backend/routes/reminderRoutes.js:15`;
- Doctor for create, `backend/routes/prescriptionRoutes.js:19`;
- Patient and Doctor for the two listing routes, `backend/routes/prescriptionRoutes.js:22-23`.

Handlers that check the role in their own code model that check, with no precondition.

## Model

| member | source | states |
|---|---|---|
| Common.RoleName | backend/controllers/authController.js:36 | a role is stored as one of the four names Patient, Doctor, Pharmacist, Admin |
| Common.ParseRole | backend/controllers/authController.js:36 | a string names a role iff it is one of the four names, and then names it back |
| Common.ParseRoleName | backend/controllers/authController.js:36 | parsing a role's name gives the role back |
| Common.Midnight | backend/controllers/reminderController.js:60-61 | `setHours(0,0,0,0)`: a day boundary at or before the instant, less than a day before it |
| Common.CeilDays | backend/controllers/inventoryController.js:82 | `Math.ceil(ms / 86400000)`: the least d with ms <= d days |
| Common.Percentage | backend/controllers/medicationController.js:203-205 | 0 for an empty total; otherwise the integer nearest 100·taken/total, halves rounded up |
| Common.PercentageAtMostHundred | backend/controllers/medicationController.js:203-205 | a part of the total never rates above 100 |
| Common.PercentageExtremes | backend/controllers/medicationController.js:203-205 | none taken gives 0, all of a non-empty total gives 100 |
| Common.ToLower | backend/controllers/interactionsController.js:32-33 | `toLowerCase`: same length, each upper-case letter lowered, every other character kept |
| Common.ToLowerIdempotent | backend/controllers/interactionsController.js:36-37 | lower-casing twice is lower-casing once |
| Common.NatToString | frontend/js/app.js:141 | decimal rendering: at least one digit, only digits, no leading zero |
| Common.IntToString | frontend/js/app.js:141 | a rendered integer starts with '-' iff it is negative |
| Models.FrequencyName | backend/models/Medication.js:24-29 | a frequency is stored as Daily, Alternate or Custom |
| Models.ParseFrequency | backend/models/Medication.js:24-29 | the enum validator accepts exactly the three names |
| Models.FrequencyRoundTrip | backend/models/Medication.js:24-29 | name and validator are inverse both ways |
| Models.NotificationName | backend/models/Medication.js:34-38 | a notification type is stored as Push, Email or Both |
| Models.ParseNotification | backend/models/Medication.js:34-38 | the enum validator accepts exactly the three names |
| Models.NotificationRoundTrip | backend/models/Medication.js:34-38 | name and validator are inverse both ways |
| Models.MedicationStatusName | backend/models/Medication.js:39-43 | a medication status is stored as Active, Inactive or Completed |
| Models.ParseMedicationStatus | backend/models/Medication.js:39-43 | the enum validator accepts exactly the three names |
| Models.MedicationStatusRoundTrip | backend/models/Medication.js:39-43 | name and validator are inverse both ways |
| Models.PrescriptionStatusName | backend/models/Prescription.js:41-45 | a prescription status is stored as Active or Expired |
| Models.ParsePrescriptionStatus | backend/models/Prescription.js:41-45 | the enum validator accepts exactly the two names |
| Models.PrescriptionStatusRoundTrip | backend/models/Prescription.js:41-45 | name and validator are inverse both ways |
| Models.NewReminder | backend/models/Reminder.js:4-33 | a reminder created with its required fields gets taken = false, snoozed = false and snoozeCount = 0 |
| Store.Db.Allocate | backend/controllers/authController.js:92 | a created record's id is fresh in every collection, and later ids are larger |
| Store.IdsWhere | backend/controllers/medicationController.js:74 | `find(filter)`: exactly the stored ids whose records pass the filter, in increasing order |
| Store.Select | backend/controllers/medicationController.js:74 | the records under the found ids, position by position |
| Store.SelectWhere | backend/controllers/medicationController.js:74 | a `find` returns every stored record that passes the filter and nothing else |
| Store.IdsWhereCount | backend/controllers/medicationController.js:74 | a `find` lists each stored id that passes the filter exactly once, so its length is the number of such records |
| Store.SelectBelow | backend/controllers/reminderController.js:65-71 | a `find` over the ids below the store's bound holds every passing record, one entry per passing record |
| Store.All | backend/controllers/inventoryController.js:69 | `find({})`: every stored record and only stored records, one entry per stored record |
| Store.CountWhere | backend/controllers/analyticsController.js:50 | `filter(P).length` is at most the length |
| Store.CountBelowSize | backend/controllers/analyticsController.js:16 | `countDocuments()` over ids below the counter counts the whole collection |
| RoleGuard.Authorize | backend/middleware/roleMiddleware.js:3-21 | no user gives 401 "Not authenticated"; a role outside the list gives 403; otherwise the request passes on, and it passes iff the role is listed |
| RoleGuard.EmptyListRejectsAll | backend/middleware/roleMiddleware.js:12-17 | an empty allowed list rejects everyone, an authenticated user with 403 |
| RoleGuard.SingleRoleGate | backend/middleware/roleMiddleware.js:12-19 | `authorize(r)` passes exactly the users holding r |
| RoleGuard.DecisionBySet | backend/middleware/roleMiddleware.js:12 | the decision depends on the allowed roles as a set, not on their order or repetition |
| Auth.UserByEmail | backend/controllers/authController.js:64 | `User.findOne({ email })`: a user with that email, or none when no user has it |
| Auth.NewUser | backend/controllers/authController.js:73-90 | the stored user has the basic fields, the doctor fields only for a Doctor and the pharmacist fields only for a Pharmacist |
| Auth.RegisterReply | backend/controllers/authController.js:28-92 | every refusal is a 400, in order: basic fields, role, doctor fields, pharmacist fields, email taken; success iff all pass, with 201 and the new user |
| Auth.DuplicateEmailCheckedLast | backend/controllers/authController.js:63-70 | a refusal is "email taken" iff every field check passed and the email is registered |
| Auth.RegisterTwiceRefused | backend/controllers/authController.js:64-70 | registering the same email again after a success is refused |
| Auth.Register | backend/controllers/authController.js:14-106 | the reply is `RegisterReply`; a success adds exactly the new user under a fresh id, and a refusal changes nothing |
| Auth.LoginReply | backend/controllers/authController.js:123-148 | 400 without email or password; otherwise 401 "Invalid credentials" unless the email is registered and the password matches, and then the signed-in user |
| Auth.LoginFailuresAlike | backend/controllers/authController.js:133-148 | an unknown email and a wrong password get the very same reply |
| Auth.RegisterThenLogin | backend/controllers/authController.js:92-148 | a just-registered user signs in with the same credentials and gets the registered role |
| Reminders.Offsets | backend/controllers/reminderController.js:220-254 | the scheduled day offsets are below the horizon, scheduled, and strictly increasing |
| Reminders.OffsetsComplete | backend/controllers/reminderController.js:220-254 | no scheduled day is skipped |
| Reminders.BatchAtOffsets | backend/controllers/reminderController.js:220-254 | the k-th generated reminder is a fresh reminder dated at the k-th scheduled offset |
| Reminders.Batch | backend/controllers/reminderController.js:220-254 | the reference list of the generator: one fresh reminder per scheduled day, at most one per day of the horizon |
| Reminders.EveryDayOffsets | backend/controllers/reminderController.js:224-253 | Daily and Custom schedule every offset 0 .. n-1 |
| Reminders.EvenDayOffsets | backend/controllers/reminderController.js:233-243 | Alternate schedules offsets 0, 2, 4, ... only |
| Reminders.NoOffsets | backend/controllers/reminderController.js:224-254 | any other frequency string schedules nothing |
| Reminders.DailyBatch | backend/controllers/reminderController.js:216-232 | Daily and Custom give exactly 30 reminders, on each consecutive day from today |
| Reminders.AlternateBatch | backend/controllers/reminderController.js:233-243 | Alternate gives exactly 15 reminders, at offsets 0, 2, ..., 28 |
| Reminders.OtherBatch | backend/controllers/reminderController.js:257-260 | any other frequency gives no reminders |
| Reminders.BatchShape | backend/controllers/reminderController.js:220-232 | every generated reminder carries the given user, medication and time, is untaken, unsnoozed with no snoozes, dated within the 30 days, with strictly increasing dates |
| Reminders.BuildBatch | backend/controllers/reminderController.js:215-255 | the generator loop builds exactly `Batch` for the 30 days |
| Reminders.GenerateRemindersForMedication | backend/controllers/reminderController.js:214-261 | the batch from today's midnight is inserted under fresh consecutive ids, nothing else in the store changes, and the inserted records are returned |
| Reminders.GenerateReminders | backend/controllers/reminderController.js:7-39 | 403 for a non-Patient, 400 without medication id, frequency or time, both leaving the store unchanged; otherwise 201 with the inserted batch |
| Reminders.Take | backend/controllers/reminderController.js:130-131 | marking taken sets taken, clears snoozed and keeps every other field |
| Reminders.SnoozeOnce | backend/controllers/reminderController.js:196-197 | snoozing sets snoozed, counts one more snooze and keeps taken |
| Reminders.Credit | backend/controllers/reminderController.js:135-141 | the medication, if it exists, gains one adherence count; all other medications are unchanged |
| Reminders.MarkTakenReply | backend/controllers/reminderController.js:91-146 | guards in order: non-Patient 403, no id 400, missing 404, not the owner 403; success iff all pass, with the reminder taken |
| Reminders.MarkTakenNext | backend/controllers/reminderController.js:129-141 | the state after mark-taken: no reminder or medication appears or disappears |
| Reminders.MarkTakenFailureChangesNothing | backend/controllers/reminderController.js:95-127 | on any failed guard neither the reminder nor the medication changes |
| Reminders.MarkTakenEffect | backend/controllers/reminderController.js:129-141 | a success sets taken, clears snoozed and keeps the snooze count; the medication's count grows by exactly one, and a missing medication is tolerated |
| Reminders.MarkTakenTwiceCountsTwice | backend/controllers/reminderController.js:129-141 | marking the same reminder twice leaves it as after once but counts two doses |
| Reminders.MarkTaken | backend/controllers/reminderController.js:91-146 | the reply is `MarkTakenReply` and the new reminders and medications are `MarkTakenNext` |
| Reminders.SnoozeMessage | backend/controllers/reminderController.js:169-203 | without minutes the message says 15 minutes |
| Reminders.SnoozeReply | backend/controllers/reminderController.js:158-204 | the same guard order as mark-taken; success iff all pass, with the reminder snoozed once |
| Reminders.SnoozeMinutesOnlyInMessage | backend/controllers/reminderController.js:195-203 | the snooze minutes never change the saved reminder or whether the snooze succeeds |
| Reminders.Snooze | backend/controllers/reminderController.js:158-204 | the reply is `SnoozeReply`; only the snoozed reminder changes, and only on success |
| Reminders.SnoozeThenTake | backend/controllers/reminderController.js:130-197 | a snooze never resets taken, and a later mark-taken clears snoozed while keeping the count |
| Reminders.TodayReminders | backend/controllers/reminderController.js:51-79 | 403 for a non-Patient; otherwise the caller's reminders dated in [midnight, midnight + 1 day) and no others, one entry per stored record, so `count` is their number |
| Reminders.AllReminders | backend/controllers/reminderController.js:269-301 | 403 for a non-Patient; otherwise the caller's reminders and no others, restricted to the given date's day when one is given, one entry per stored record, so `count` is their number |
| Reminders.AllRemindersOfTodayAreToday | backend/controllers/reminderController.js:282-292 | asking for all reminders on today's date gives today's reminders |
| Medications.NewMedication | backend/controllers/medicationController.js:12-39 | 403 for a non-Patient, then 400 for a missing field, then 500 for an enum the schema refuses; otherwise the caller's Active medication with notification Push and no prescription by default and count 0 |
| Medications.CreatedMedicationGetsReminders | backend/controllers/medicationController.js:47 | a stored medication always yields reminders: 15 for Alternate, otherwise 30 |
| Medications.CreateMedication | backend/controllers/medicationController.js:9-52 | the reply is `NewMedication`; a success stores it under a fresh id and inserts exactly one generated batch for that id, frequency and time; a refusal changes nothing |
| Medications.ListMedications | backend/controllers/medicationController.js:67-81 | 403 for a non-Patient; otherwise every medication of the caller and no other, one entry per stored medication of the caller |
| Medications.OwnerGuard | backend/controllers/medicationController.js:96-111 | 404 when missing, then 403 unless the caller owns it |
| Medications.ApplyMedicationPatch | backend/controllers/medicationController.js:114-121 | every field sent replaces the stored one, the enum fields by their names, and every field absent is kept; a valid medication stays valid |
| Medications.UpdateMedicationReply | backend/controllers/medicationController.js:96-126 | the owner guard's refusals first; success iff owned and the validators accept, with the patched record |
| Medications.UpdateCanTransferOwnership | backend/controllers/medicationController.js:106-121 | an owner may send a new userId, after which the former owner is refused |
| Medications.UpdateMedication | backend/controllers/medicationController.js:94-126 | the reply is `UpdateMedicationReply`; only that medication changes, and only on success |
| Medications.WithoutMedication | backend/controllers/medicationController.js:158 | `deleteMany({ medicationId })` keeps exactly the other reminders, unchanged |
| Medications.DeleteMedication | backend/controllers/medicationController.js:138-165 | 404 and 403 change nothing; a success removes the medication and exactly its reminders |
| Medications.CascadeRemovesOnlyItsReminders | backend/controllers/medicationController.js:157-160 | after the cascade no reminder refers to the medication, all others are untouched, and a second cascade changes nothing |
| Medications.CountTaken | backend/controllers/medicationController.js:202 | the taken count is at most the number of reminders |
| Medications.CountTakenExtremes | backend/controllers/medicationController.js:202 | the count is the length iff all are taken, and 0 iff none is |
| Medications.RemindersOf | backend/controllers/medicationController.js:200 | exactly the reminders of the medication, one entry per stored reminder, so the adherence total is the number stored |
| Medications.GetAdherence | backend/controllers/medicationController.js:180-217 | the owner guard's refusals; otherwise the total is the number of stored reminders of that medication, with the taken count, missed = total - taken, and the percentage, at most 100 |
| Medications.AdherenceIgnoresAdherenceCount | backend/controllers/medicationController.js:199-205 | the percentage does not depend on the stored adherence count |
| Medications.AdherenceExtremes | backend/controllers/medicationController.js:201-205 | none taken gives 0 and all taken gives 100 |
| Prescriptions.PatientByEmail | backend/controllers/prescriptionController.js:22-31 | a Patient with the lower-cased email, or none when no Patient has it |
| Prescriptions.DerivedExpiry | backend/controllers/prescriptionController.js:37-41 | the derived expiry lies `duration` days after the start |
| Prescriptions.StatusAt | backend/controllers/prescriptionController.js:44-45 | Expired iff the expiry lies before now |
| Prescriptions.CreateReply | backend/controllers/prescriptionController.js:8-58 | 400 unless a patient reference and every required field are given; 404 for an email no Patient has; otherwise 201 with the caller as doctor, the supplied or derived expiry, and status Expired iff that lies before now |
| Prescriptions.TenDayPrescription | backend/controllers/prescriptionController.js:37-41 | started 2024-01-01 for 10 days with no expiry, it expires on 2024-01-11 |
| Prescriptions.CreatePrescription | backend/controllers/prescriptionController.js:6-67 | the reply is `CreateReply`; a success stores it under a fresh id, a refusal changes nothing |
| Prescriptions.Resolve | backend/controllers/prescriptionController.js:107-108 | the result is Expired iff the prescription was Expired or is past its expiry; no other field changes |
| Prescriptions.ResolveIdempotent | backend/controllers/prescriptionController.js:106-111 | resolving twice is resolving once |
| Prescriptions.ResolveMonotone | backend/controllers/prescriptionController.js:106-111 | once resolved Expired it stays Expired, and a later resolution subsumes an earlier one |
| Prescriptions.ResolvedIn | backend/controllers/prescriptionController.js:106-111 | the listed prescriptions are resolved and every other one is unchanged |
| Prescriptions.ResolveListed | backend/controllers/prescriptionController.js:106-111 | the save loop leaves the store as `ResolvedIn` and returns the listed records as resolved |
| Prescriptions.GetPrescriptions | backend/controllers/prescriptionController.js:79-117 | success iff Patient or Doctor, else 403 with nothing changed; the caller's prescriptions are resolved in the store and returned |
| Prescriptions.ListingContents | backend/controllers/prescriptionController.js:84-111 | a listing shows only the caller's prescriptions and each of them resolved, and leaves every other prescription unchanged |
| Prescriptions.GetPatientPrescriptions | backend/controllers/prescriptionController.js:129-149 | the prescriptions naming the caller as patient, resolved in the store and returned |
| Prescriptions.GetDoctorPrescriptions | backend/controllers/prescriptionController.js:161-181 | the prescriptions the caller issued, resolved in the store and returned |
| Prescriptions.GetPrescription | backend/controllers/prescriptionController.js:193-224 | 404 when missing; a Patient reads only its own and a Doctor only those it issued (403 otherwise); the stored record is returned unresolved |
| Prescriptions.SingleReadMayBeStale | backend/controllers/prescriptionController.js:193-224 | a single read can show Active where a listing at the same moment shows Expired |
| Prescriptions.ModifyGuard | backend/controllers/prescriptionController.js:238-262 | 404 before any role check, then 403 for a Patient and for a Doctor who is not the issuer |
| Prescriptions.UpdatedStatus | backend/controllers/prescriptionController.js:264-279 | with an expiry sent the status is recomputed both ways; without one an Active prescription past its expiry is demoted, and otherwise the status sent stands |
| Prescriptions.UpdateAccepted | backend/controllers/prescriptionController.js:282-288 | `runValidators`: no required string emptied, and the status written is Active or Expired |
| Prescriptions.ApplyPatch | backend/controllers/prescriptionController.js:282-286 | `findByIdAndUpdate(id, updateData)`: each field sent replaces the stored one, the creation date included; the status is the one written |
| Prescriptions.UpdateReply | backend/controllers/prescriptionController.js:236-295 | the guard's refusals first; success iff the guard passes and the validators accept (no emptied medicine name or dosage, a written status in the enum), otherwise 500; a success stores the patch with the status written, or keeps the stored one, and a valid record stays valid |
| Prescriptions.UpdateRecomputesBothWays | backend/controllers/prescriptionController.js:266-272 | with an expiry sent the status is Expired iff that expiry lies before now |
| Prescriptions.UpdateWithoutExpiryOnlyDemotes | backend/controllers/prescriptionController.js:273-279 | without expiry or status the update changes status only as the resolver would |
| Prescriptions.UpdateStatusFieldOverridesExpiry | backend/controllers/prescriptionController.js:265-279 | sending only status Active re-activates an expired prescription past its expiry |
| Prescriptions.UnknownStatusRefused | backend/controllers/prescriptionController.js:264-288 | a status outside the enum, sent without an expiry date to a record not being demoted, gets a 500 |
| Prescriptions.ExpiryDateReplacesSentStatus | backend/controllers/prescriptionController.js:264-271 | with an expiry date sent the computed status replaces any status sent, even one outside the enum, and the update succeeds |
| Prescriptions.UpdatePrescription | backend/controllers/prescriptionController.js:236-295 | the reply is `UpdateReply`; only that prescription changes, and only on success |
| Prescriptions.DeleteReply | backend/controllers/prescriptionController.js:307-340 | the guard's refusals, otherwise the success message |
| Prescriptions.DeleteRoles | backend/controllers/prescriptionController.js:318-333 | a Patient can never delete; a Pharmacist or an Admin can delete any stored prescription |
| Prescriptions.DeletePrescription | backend/controllers/prescriptionController.js:307-340 | the reply is `DeleteReply`; the prescription is removed only on success |
| Inventory.ExpiryFlagsByInstant | backend/controllers/inventoryController.js:80-85 | expired iff at least a day past expiry; expiring soon iff less than a day past up to 30 days ahead |
| Inventory.ExpiryFlagsExclusive | backend/controllers/inventoryController.js:84-85 | no item is both expired and expiring soon |
| Inventory.DaysToExpiry | backend/controllers/inventoryController.js:80-82 | `Math.ceil((expiry - today) / day)`: the whole days d with the time left in ((d-1) days, d days] |
| Inventory.IsLowStock | backend/controllers/inventoryController.js:77 | low stock iff the quantity is at most the threshold |
| Inventory.IsExpired | backend/controllers/inventoryController.js:84 | expired iff the day count is negative; by `ExpiryFlagsByInstant` iff a whole day past expiry |
| Inventory.IsExpiringSoon | backend/controllers/inventoryController.js:85 | expiring soon iff the day count lies in 0 .. 30; by `ExpiryFlagsByInstant` iff less than a day past up to 30 days ahead |
| Inventory.Process | backend/controllers/inventoryController.js:73-88 | the item with low stock iff quantity <= threshold and the two exclusive expiry flags |
| Inventory.GetItems | backend/controllers/inventoryController.js:52-94 | 403 unless Pharmacist or Admin; otherwise one processed item per stored item, in order, with the count equal to the number stored |
| Inventory.Threshold | backend/controllers/inventoryController.js:34 | `lowStockThreshold \|\| 10`: a sent non-zero threshold is kept, an absent one or 0 becomes 10 |
| Inventory.NewItem | backend/controllers/inventoryController.js:9-39 | 403 for a non-Pharmacist, 500 when a validator fails; otherwise the caller's item with the sent fields and the threshold default, within the schema bounds |
| Inventory.ZeroThresholdBecomesTen | backend/controllers/inventoryController.js:34 | a threshold of 0 is stored as 10, so the item is low at 10 units or fewer |
| Inventory.AddItem | backend/controllers/inventoryController.js:6-40 | the reply is `NewItem`; a success stores it under a fresh id, a refusal changes nothing |
| Inventory.UpdateItemReply | backend/controllers/inventoryController.js:108-134 | 403, then 404, then 500 for a validator; otherwise the patched item, valid when the stored one was |
| Inventory.ApplyItemPatch | backend/controllers/inventoryController.js:127-130 | `findByIdAndUpdate(id, body)`: each field sent replaces the stored one, the others are kept |
| Inventory.UpdateItem | backend/controllers/inventoryController.js:106-135 | the reply is `UpdateItemReply`; only that item changes, and only on success |
| Inventory.DeleteItemReply | backend/controllers/inventoryController.js:149-170 | 403 for a non-Pharmacist, 404 when missing, otherwise the removal message |
| Inventory.NoOwnershipCheck | backend/controllers/inventoryController.js:124-127 | any Pharmacist may update or delete an item another Pharmacist added |
| Inventory.DeleteItem | backend/controllers/inventoryController.js:147-170 | the reply is `DeleteItemReply`; the item is removed only on success |
| Analytics.CountRole | backend/controllers/analyticsController.js:17-19 | `countDocuments({ role })` is at most the number of ids |
| Analytics.AdminAnalyticsAsWritten | backend/controllers/analyticsController.js:10-30 | 403 for a non-Admin; pharmacists counted under the role string "Pharmacy" |
| Analytics.PharmacyNeverCounted | backend/controllers/analyticsController.js:19 | no user is counted under "Pharmacy" |
| Analytics.PharmacistMissedByAdminView | backend/controllers/analyticsController.js:19 | with one registered Pharmacist the as-written view reports 0 pharmacists |
| Analytics.AdminAnalytics | backend/controllers/analyticsController.js:10-30 | 403 for a non-Admin; otherwise the collection sizes and the users per role, pharmacists by their registered role |
| Analytics.RoleCountsPartition | backend/controllers/analyticsController.js:16-19 | the four role counts add up to the number of users |
| Analytics.AdminCountsAddUp | backend/controllers/analyticsController.js:16-19 | patients, doctors, pharmacists and admins together are all users |
| Analytics.MonthIndexExamples | backend/controllers/analyticsController.js:57-58 | the calendar conversion puts 2024-01-01 in January and 2024-02-29 in February |
| Analytics.MonthOfYear | backend/controllers/analyticsController.js:58 | a short month name is one of twelve |
| Analytics.HistoryKeys | backend/controllers/analyticsController.js:56-60 | six distinct month keys, oldest first, ending with the current month |
| Analytics.MonthIndex | backend/controllers/analyticsController.js:57-58 | the UTC calendar month of an instant as year·12 + month, pinned by `MonthIndexExamples` |
| Analytics.IssuedDateMonth | backend/controllers/analyticsController.js:63-64 | as written: `p.issuedDate` is undefined, so no prescription has a history key |
| Analytics.CreatedAtMonth | backend/controllers/analyticsController.js:63-64 | corrected: the month name of the creation date, always one of the twelve |
| Analytics.Tally | backend/controllers/analyticsController.js:62-68 | a bucket never holds more than the prescriptions counted |
| Analytics.History | backend/controllers/analyticsController.js:55-68 | the first loop makes exactly the six keys at 0, the second raises only existing keys, one per matching prescription |
| Analytics.IssuedDateHistoryEmpty | backend/controllers/analyticsController.js:63-67 | as written, every bucket stays 0 |
| Analytics.IssuedDateMissesThisMonth | backend/controllers/analyticsController.js:63-67 | a prescription created this month reads 0 as written and 1 when keyed by its creation date |
| Analytics.CreatedThisMonthCounted | backend/controllers/analyticsController.js:62-68 | keyed by creation date, any prescription created in the current month is counted in the current bucket |
| Analytics.SameMonthLastYearCounted | backend/controllers/analyticsController.js:64-66 | a prescription from the same month a year earlier falls in the current month's bucket |
| Analytics.TalliesAtMostIssued | backend/controllers/analyticsController.js:62-68 | over distinct keys the buckets add up to at most the number issued |
| Analytics.IssuedBy | backend/controllers/analyticsController.js:46 | exactly the prescriptions the doctor issued, one entry per stored prescription |
| Analytics.GetDoctorAnalytics | backend/controllers/analyticsController.js:39-77 | with the month read by `monthOf`: 403 for a non-Doctor; otherwise the number of stored prescriptions the caller issued, the Active ones (at most that), the six keys and their tallies, summing to at most the number issued. With `IssuedDateMonth` this is the handler as written, whose buckets all read 0 (`IssuedDateHistoryEmpty`); with `CreatedAtMonth` it is the corrected view |
| Analytics.TotalValue | backend/controllers/analyticsController.js:95 | the total value of items within the schema bounds is not negative |
| Analytics.ExpiredAt | backend/controllers/analyticsController.js:100 | the analytics test for expired: the expiry instant is before now |
| Analytics.PharmacyAnalytics | backend/controllers/analyticsController.js:86-114 | 403 for a non-Pharmacist; otherwise the number of stored items, total value and low-stock, expired and expiring-soon counts, each at most the item count |
| Analytics.ExpiredWithinADay | backend/controllers/analyticsController.js:100-105 | an item expired less than a day ago counts as both expired and expiring soon here, while the listing does not flag it expired |
| Analytics.RemindersOfUser | backend/controllers/analyticsController.js:130 | exactly the caller's reminders, one entry per stored reminder |
| Analytics.PrescriptionsOf | backend/controllers/analyticsController.js:150-152 | exactly the caller's prescriptions, one entry per stored prescription |
| Analytics.MedicineCount | backend/controllers/analyticsController.js:129-132 | `medications.length`: the number of stored medications of the caller |
| Analytics.PatientAnalytics | backend/controllers/analyticsController.js:123-166 | 403 exactly for a non-Patient; otherwise the dashboard figures of the caller |
| Analytics.PatientStatsFor | backend/controllers/analyticsController.js:129-163 | the number of stored medications of the user, taken + missed = total over the user's stored reminders, the rate (at most 100), trends [65, 72, 68, rate] and at most five of the user's prescriptions, a prefix of them |
| Analytics.TrendsFixedButLast | backend/controllers/analyticsController.js:147 | the trend series has four entries and the first three never depend on the reminders |
| Interactions.FindFrom | backend/controllers/interactionsController.js:35-38 | the first entry whose lower-cased pair includes both lower-cased names, or none when no entry does |
| Interactions.Lowered | backend/controllers/interactionsController.js:32-33 | position by position, each listed name lower-cased |
| Interactions.AllReports | backend/controllers/interactionsController.js:30-48 | the reference report list: every pair i < j once, in (i, j) order; bounded by `AtMostOneReportPerPair` and drawn from the table by `ReportsFromTable` |
| Interactions.PairReport | backend/controllers/interactionsController.js:35-46 | a pair contributes at most one report |
| Interactions.Row | backend/controllers/interactionsController.js:31-47 | a row holds at most one report per later medicine |
| Interactions.CheckInteractions | backend/controllers/interactionsController.js:14-53 | no array or fewer than two names gives 200 with no data and the note; otherwise 200 with `AllReports`, every pair i < j in order |
| Interactions.CheckRow | backend/controllers/interactionsController.js:31-47 | the inner loop yields exactly the row of medicine i |
| Interactions.RowsBound | backend/controllers/interactionsController.js:30-31 | the first i rows hold at most as many reports as pairs they examine |
| Interactions.AtMostOneReportPerPair | backend/controllers/interactionsController.js:30-31 | n medicines give at most n(n-1)/2 reports |
| Interactions.ReportsFromTable | backend/controllers/interactionsController.js:40-46 | every report is a table entry's canonical pair, severity and description |
| Interactions.CaseInsensitive | backend/controllers/interactionsController.js:32-37 | lists whose names agree once lower-cased get the same reports |
| Interactions.PairFound | backend/controllers/interactionsController.js:35-46 | two medicines whose first match is entry k are reported as that entry |
| Interactions.FindFirst | backend/controllers/interactionsController.js:35-38 | a name listed twice matches the first entry mentioning it |
| Interactions.DuplicateNameQuirk | backend/controllers/interactionsController.js:32-38 | the same drug listed twice, in any case, is reported as the first entry containing it |
| Interactions.AspirinWithWarfarin | backend/controllers/interactionsController.js:4 | Aspirin with Warfarin reports the high-severity bleeding risk |
| Frontend.Split | frontend/js/app.js:137 | `split(':')`: at least one piece, none containing ':' |
| Frontend.JoinSplit | frontend/js/app.js:137 | joining the pieces with ':' gives the text back |
| Frontend.SplitAfterHead | frontend/js/app.js:137 | a colon-free head is the first piece and the rest splits on |
| Frontend.SplitColonFree | frontend/js/app.js:137 | colon-free text is a single piece |
| Frontend.TrimStart | frontend/js/app.js:138 | `parseInt` skips leading white space: the result is a suffix that starts with no white space |
| Frontend.ParseInt | frontend/js/app.js:138 | `parseInt` without radix: white space, a sign, then decimal digits, or NaN; read back by `ParseIntToString` |
| Frontend.ParseIntToString | frontend/js/app.js:138-141 | `parseInt` reads back every rendered integer |
| Frontend.UnsignedDecimal | frontend/js/app.js:138 | a rendered natural number reads back as itself |
| Frontend.ReadsDecimal | frontend/js/app.js:138 | two decimal digits read as their value |
| Frontend.TruncRem | frontend/js/app.js:140 | JavaScript's `%`: the remainder has the dividend's sign and lies strictly between -12 and 12 for 12 |
| Frontend.Suffix | frontend/js/app.js:139 | PM iff the hour is a number at least 12 |
| Frontend.DisplayHour | frontend/js/app.js:140 | `hour % 12 \|\| 12`: a zero or NaN remainder shows 12 |
| Frontend.FormatTime | frontend/js/app.js:135-141 | the result is '' iff the time is absent or empty |
| Frontend.MinutesVerbatim | frontend/js/app.js:137-141 | the text after the colon is copied through untouched |
| Frontend.NoColonMinutesUndefined | frontend/js/app.js:137-141 | without a colon the minutes read "undefined" |
| Frontend.TwelveHourClock | frontend/js/app.js:139-140 | a 24-hour clock hour shows as hour mod 12, with 0 as 12, and PM exactly from 12 on |
| Frontend.TwelveHourInjective | frontend/js/app.js:139-141 | the reading with its suffix tells every hour of the day apart |
| Frontend.NegativeHourShown | frontend/js/app.js:139-140 | a negative hour keeps its sign and reads AM |
| Frontend.ReadingAt | frontend/js/app.js:137-141 | a two-digit hour field with minutes reads as its hour's display and suffix |
| Frontend.MidnightExample | frontend/js/app.js:140 | hour "00" reads 12 AM |
| Frontend.NoonExample | frontend/js/app.js:139-140 | hour "12" reads 12 PM |
| Frontend.AfternoonExample | frontend/js/app.js:139-140 | hour "13" reads 1 PM |
| Frontend.NotANumberHour | frontend/js/app.js:138-140 | an hour that is not a number reads 12 AM |
| Frontend.HasRole | frontend/js/app.js:118-124 | a role requirement can hold only when someone is signed in |
| Frontend.HasRoleLists | frontend/js/app.js:120-123 | a single role is the one-element list, and a list accepts a role iff one of its members would |
| Frontend.HasRoleRefuses | frontend/js/app.js:118-124 | nobody signed in is refused, and so is everyone by an empty list |

## Left out

- Sorting is not modelled. These members list records in creation order rather than in the source's sort order: `Medications.ListMedications`, `Reminders.TodayReminders`, `Reminders.AllReminders`, `Prescriptions.GetPrescriptions`, `Prescriptions.GetPatientPrescriptions`, `Prescriptions.GetDoctorPrescriptions` and `Inventory.GetItems`.
- Analytics.PatientAnalytics: the source sorts the patient history by a field the schema lacks. The model takes the first five prescriptions in creation order.
- `populate`, the schema's `trim`, and the Mongoose error texts are not modelled. Validation failures carry a fixed message with status 500.
- The 500 replies for store and infrastructure failures are not modelled, since the store cannot fail in the model. This includes the catch blocks of every handler, and of the interaction check for a list element that is not a string.
- JWT signing, token handling, and the `protect` middleware are not modelled. The authenticated caller is a parameter.
- Password hashing and matching are not modelled. Login takes the password check as a predicate.
- `getMe` and `getProfile` are not part of this model. The User model file is not part of this model either; its fields are the ones registration stores.
- Time zones are not modelled: dates are UTC milliseconds. `Reminders.Batch` and `Prescriptions.DerivedExpiry` add whole days of 86 400 000 ms where the source's `setDate` works in local time, so the model does not capture daylight-saving shifts.
- Analytics.MonthIndex: months are computed in UTC, where the source uses local time.
- Strings sent as dates are not parsed (`new Date(string)`, including the date query of `getAllReminders`). Dates arrive as integers.
- The duration of a prescription is not parsed with `parseInt`; it arrives as an integer.
- Common.Percentage: rounds the exact ratio half up. It does not model the floating-point division the source rounds, which can differ on a few exact halves.
- Analytics.TotalValue: prices and quantities are integers; floating-point sums are not modelled.
- Analytics.MonthOfYear: locale month names (`toLocaleString`) are not modelled. A name is the month number modulo 12.
- `formatDate`, `localStorage`, `fetch` and navigation in the browser client are not modelled. The signed-in role that `hasRole` reads is a parameter.
- Frontend.ParseIntToString: `parseInt` is modelled on unbounded integers. Loss of precision beyond 2^53 is not modelled, and neither is the radix argument, which the client never passes.
- Common.ToLower: lower-cases ASCII letters only; the rest of Unicode case mapping is not modelled.
- Concurrency is not modelled, including the non-atomic read-modify-write of the adherence count.
- The Express route files are not modelled as code. Their role gates are preconditions, as listed above.
- Prescriptions.UpdatePrescription: modelled for every role the handler's own checks admit. Its route lets only Doctors reach it, which the model does not require.
- Mongoose `runValidators` on updates is modelled as the checks for required strings, enums and bounds. Casting of sent values to the schema types is not modelled: numbers and dates arrive as integers.
- Interactions.CheckInteractions: the medicines arrive as `Option<seq<string>>`. None stands for any body without an array.

## Findings

| source | as written | input that shows it | evidently intended | confidence | as-written member | corrected member |
|---|---|---|---|---|---|---|
| backend/controllers/analyticsController.js:19 | pharmacists are counted with `role: 'Pharmacy'` | a store with one user registered as Pharmacist: the Admin view reports 0 pharmacists | count the role registration stores, 'Pharmacist' | high, not executed | Analytics.PharmacistMissedByAdminView | Analytics.AdminCountsAddUp |
| backend/controllers/analyticsController.js:63 | the month of each prescription is read from `p.issuedDate`, which the Prescription schema does not define | any prescription created this month: its month bucket stays 0 | bucket by the date the prescription was created (`createdAt`) | high, not executed | Analytics.IssuedDateMissesThisMonth | Analytics.CreatedThisMonthCounted |
