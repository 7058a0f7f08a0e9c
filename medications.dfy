/** The medication controller: creation with its guards, defaults and the
    one call to the reminder generator; listing; the owner-checked update
    and delete (with its reminder cascade); and the adherence percentage. */
module Medications {
  import opened Common
  import opened Models
  import opened Store
  import opened Reminders

  // ----------------------------------------------------------------- create

  /** The body of POST /api/medications; absent fields are None. */
  datatype MedicationRequest = MedicationRequest(
    prescriptionId: Option<Id>,
    name: Option<string>,
    dosage: Option<string>,
    frequency: Option<string>,
    time: Option<string>,
    notificationType: Option<string>)

  predicate MedicationFieldsGiven(req: MedicationRequest) {
    Given(req.name) && Given(req.dosage) && Given(req.frequency) && Given(req.time)
  }

  /** The schema's enum validation accepts the request's frequency and
      notification type (an absent or empty notification type is not sent). */
  predicate EnumsAccepted(req: MedicationRequest)
    requires MedicationFieldsGiven(req)
  {
    ParseFrequency(req.frequency.value).Some? &&
    (Given(req.notificationType) ==> ParseNotification(req.notificationType.value).Some?)
  }

  /** The record POST /api/medications stores, or why it stores none: 403 for
      a non-Patient, then 400 for a missing name, dosage, frequency or time,
      then 500 when the schema rejects an enum value. A stored record belongs
      to the caller, is Active with no doses counted, and takes Push and no
      prescription by default. */
  function NewMedication(caller: Caller, req: MedicationRequest): (r: Result<Medication>)
    ensures caller.role != Patient ==> r.Fail? && r.status == FORBIDDEN
    ensures caller.role == Patient && !MedicationFieldsGiven(req) ==> r.Fail? && r.status == BAD_REQUEST
    ensures caller.role == Patient && MedicationFieldsGiven(req) && !EnumsAccepted(req) ==>
      r.Fail? && r.status == SERVER_ERROR
    ensures r.Ok? <==> caller.role == Patient && MedicationFieldsGiven(req) && EnumsAccepted(req)
    ensures r.Ok? ==>
      var m := r.value;
      && r.status == CREATED
      && m.userId == caller.id && m.prescriptionId == req.prescriptionId
      && m.name == req.name.value && m.dosage == req.dosage.value && m.time == req.time.value
      && FrequencyName(m.frequency) == req.frequency.value
      && (Given(req.notificationType) ==> NotificationName(m.notificationType) == req.notificationType.value)
      && (!Given(req.notificationType) ==> m.notificationType == DefaultNotification)
      && m.status == DefaultMedicationStatus && m.adherenceCount == DefaultAdherenceCount
      && ValidMedication(m)
  {
    if caller.role != Patient then
      Fail(FORBIDDEN, "Access denied. Only patients can add medications")
    else if !MedicationFieldsGiven(req) then
      Fail(BAD_REQUEST, "Please provide name, dosage, frequency, and time")
    else if !EnumsAccepted(req) then
      Fail(SERVER_ERROR, "Medication validation failed")
    else
      var notification :=
        if Given(req.notificationType) then ParseNotification(req.notificationType.value).value
        else DefaultNotification;
      Ok(CREATED, Medication(caller.id, req.prescriptionId, req.name.value, req.dosage.value,
                             ParseFrequency(req.frequency.value).value, req.time.value, notification,
                             DefaultMedicationStatus, DefaultAdherenceCount))
  }

  /** A medication that is stored always gets reminders: its frequency passed
      the enum check, so the generator yields 15 (Alternate) or 30 records. */
  lemma CreatedMedicationGetsReminders(caller: Caller, req: MedicationRequest, id: Id, today: int)
    requires NewMedication(caller, req).Ok?
    ensures var b := Batch(caller.id, id, req.frequency.value, req.time.value, today, Horizon);
      |b| == if req.frequency.value == "Alternate" then 15 else 30
  {
    var f := req.frequency.value;
    if f == "Alternate" {
      AlternateBatch(caller.id, id, f, req.time.value, today);
    } else {
      DailyBatch(caller.id, id, f, req.time.value, today);
    }
  }

  /** POST /api/medications: store the record, then generate its reminders
      once, with the new id, the request's frequency and time. */
  method CreateMedication(db: Db, caller: Caller, req: MedicationRequest, now: int)
    returns (res: Result<Medication>, id: Id)
    requires db.Valid()
    modifies db`medications, db`reminders, db`nextId
    ensures db.Valid()
    ensures res == NewMedication(caller, req)
    ensures res.Ok? ==>
      && id == old(db.nextId) && id !in old(db.medications)
      && db.medications == old(db.medications)[id := res.value]
      && Appended(old(db.reminders), db.reminders, id + 1,
                  Batch(caller.id, id, req.frequency.value, req.time.value, Midnight(now), Horizon))
    ensures res.Fail? ==>
      db.medications == old(db.medications) && db.reminders == old(db.reminders) && db.nextId == old(db.nextId)
  {
    id := 0;
    res := NewMedication(caller, req);
    if res.Fail? {
      return;
    }
    id := db.Allocate();
    db.medications := db.medications[id := res.value];
    var _ := GenerateRemindersForMedication(db, caller.id, id, req.frequency.value, req.time.value, now);
  }

  // ------------------------------------------------------------------ list

  /** GET /api/medications: 403 for a non-Patient, else the caller's
      medications and no one else's. */
  function ListMedications(meds: map<Id, Medication>, n: nat, caller: Caller): (r: Result<seq<Medication>>)
    requires Below(meds, n)
    ensures r.Fail? <==> caller.role != Patient
    ensures r.Fail? ==> r.status == FORBIDDEN
    ensures r.Ok? ==> r.status == OK
    ensures r.Ok? ==> forall m :: m in r.value ==> m.userId == caller.id
    ensures r.Ok? ==> forall id :: id in meds && meds[id].userId == caller.id ==> meds[id] in r.value
    ensures r.Ok? ==> |r.value| == |set id | id in meds && meds[id].userId == caller.id|
  {
    if caller.role != Patient then Fail(FORBIDDEN, "Access denied. Only patients can view medications")
    else
      var mine := (m: Medication) => m.userId == caller.id;
      SelectWhere(meds, n, mine);
      IdsWhereCount(meds, n, mine);
      assert Matching(meds, n, mine) == set id | id in meds && meds[id].userId == caller.id;
      var ms := Select(meds, IdsWhere(meds, n, mine));
      Ok(OK, ms)
  }

  // -------------------------------------------------- owner-checked handlers

  /** The checks shared by update, delete and adherence: 404 when the
      medication is missing, then 403 unless the caller owns it. */
  function OwnerGuard(meds: map<Id, Medication>, caller: Caller, id: Id, denied: string): (r: Result<Medication>)
    ensures id !in meds ==> r.Fail? && r.status == NOT_FOUND
    ensures id in meds && meds[id].userId != caller.id ==> r.Fail? && r.status == FORBIDDEN
    ensures r.Ok? <==> id in meds && meds[id].userId == caller.id
    ensures r.Ok? ==> r.value == meds[id]
  {
    if id !in meds then Fail(NOT_FOUND, "Medication not found")
    else if meds[id].userId != caller.id then Fail(FORBIDDEN, denied)
    else Ok(OK, meds[id])
  }

  /** The body of PUT /api/medications/:id: any stored field may be sent,
      enum fields as strings. */
  datatype MedicationPatch = MedicationPatch(
    userId: Option<Id>,
    prescriptionId: Option<Id>,
    name: Option<string>,
    dosage: Option<string>,
    frequency: Option<string>,
    time: Option<string>,
    notificationType: Option<string>,
    status: Option<string>,
    adherenceCount: Option<int>)

  /** The update's validators: required strings stay non-empty and enum
      fields take one of their names. */
  predicate PatchAccepted(p: MedicationPatch) {
    && p.name != Some("") && p.dosage != Some("") && p.time != Some("")
    && (p.frequency.Some? ==> ParseFrequency(p.frequency.value).Some?)
    && (p.notificationType.Some? ==> ParseNotification(p.notificationType.value).Some?)
    && (p.status.Some? ==> ParseMedicationStatus(p.status.value).Some?)
  }

  function ApplyMedicationPatch(m: Medication, p: MedicationPatch): (u: Medication)
    requires PatchAccepted(p)
    ensures u.userId == Pick(p.userId, m.userId)
    ensures p.prescriptionId.Some? ==> u.prescriptionId == p.prescriptionId
    ensures p.prescriptionId.None? ==> u.prescriptionId == m.prescriptionId
    ensures u.name == Pick(p.name, m.name) && u.dosage == Pick(p.dosage, m.dosage)
    ensures u.time == Pick(p.time, m.time)
    ensures u.adherenceCount == Pick(p.adherenceCount, m.adherenceCount)
    ensures p.frequency.Some? ==> FrequencyName(u.frequency) == p.frequency.value
    ensures p.frequency.None? ==> u.frequency == m.frequency
    ensures p.status.Some? ==> MedicationStatusName(u.status) == p.status.value
    ensures p.status.None? ==> u.status == m.status
    ensures p.notificationType.Some? ==> NotificationName(u.notificationType) == p.notificationType.value
    ensures p.notificationType.None? ==> u.notificationType == m.notificationType
    ensures ValidMedication(m) ==> ValidMedication(u)
  {
    Medication(
      Pick(p.userId, m.userId),
      if p.prescriptionId.Some? then p.prescriptionId else m.prescriptionId,
      Pick(p.name, m.name), Pick(p.dosage, m.dosage),
      if p.frequency.Some? then ParseFrequency(p.frequency.value).value else m.frequency,
      Pick(p.time, m.time),
      if p.notificationType.Some? then ParseNotification(p.notificationType.value).value else m.notificationType,
      if p.status.Some? then ParseMedicationStatus(p.status.value).value else m.status,
      Pick(p.adherenceCount, m.adherenceCount))
  }

  /** The reply of PUT /api/medications/:id (the route admits Patients only). */
  function UpdateMedicationReply(meds: map<Id, Medication>, caller: Caller, id: Id, p: MedicationPatch)
    : (r: Result<Medication>)
    ensures OwnerGuard(meds, caller, id, "Not authorized to update this medication").Fail? ==>
      r == OwnerGuard(meds, caller, id, "Not authorized to update this medication")
    ensures r.Ok? <==> id in meds && meds[id].userId == caller.id && PatchAccepted(p)
    ensures r.Fail? && id in meds && meds[id].userId == caller.id ==> r.status == SERVER_ERROR
    ensures r.Ok? ==> r.status == OK && r.value == ApplyMedicationPatch(meds[id], p)
  {
    var guard := OwnerGuard(meds, caller, id, "Not authorized to update this medication");
    if guard.Fail? then guard
    else if !PatchAccepted(p) then Fail(SERVER_ERROR, "Validation failed")
    else Ok(OK, ApplyMedicationPatch(meds[id], p))
  }

  /** An owner may hand a medication to another user by sending `userId`;
      after that the former owner is refused. */
  lemma UpdateCanTransferOwnership(meds: map<Id, Medication>, caller: Caller, id: Id, other: Id)
    requires id in meds && meds[id].userId == caller.id && other != caller.id
    ensures var p := MedicationPatch(Some(other), None, None, None, None, None, None, None, None);
      var r := UpdateMedicationReply(meds, caller, id, p);
      r.Ok? && UpdateMedicationReply(meds[id := r.value], caller, id, p).status == FORBIDDEN
  {
  }

  /** PUT /api/medications/:id: only the medication changes; its reminders
      are not regenerated, whatever frequency is sent. */
  method UpdateMedication(db: Db, caller: Caller, id: Id, p: MedicationPatch) returns (res: Result<Medication>)
    requires caller.role == Patient
    requires db.Valid()
    modifies db`medications
    ensures db.Valid()
    ensures res == UpdateMedicationReply(old(db.medications), caller, id, p)
    ensures db.medications == if res.Ok? then old(db.medications)[id := res.value] else old(db.medications)
  {
    var guard := OwnerGuard(db.medications, caller, id, "Not authorized to update this medication");
    if guard.Fail? {
      return guard;
    }
    if !PatchAccepted(p) {
      return Fail(SERVER_ERROR, "Validation failed");
    }
    var updated := ApplyMedicationPatch(db.medications[id], p);
    db.medications := db.medications[id := updated];
    res := Ok(OK, updated);
  }

  /** The reminders left after `Reminder.deleteMany({ medicationId })`. */
  function WithoutMedication(reminders: map<Id, Reminder>, medicationId: Id): (r: map<Id, Reminder>)
    ensures forall id :: id in r <==> id in reminders && reminders[id].medicationId != medicationId
    ensures forall id :: id in r ==> r[id] == reminders[id]
  {
    map id | id in reminders && reminders[id].medicationId != medicationId :: reminders[id]
  }

  /** DELETE /api/medications/:id (the route admits Patients only): 404, then
      403 for a non-owner, changing nothing; otherwise every reminder of the
      medication goes, then the medication. */
  method DeleteMedication(db: Db, caller: Caller, id: Id) returns (res: Result<string>)
    requires caller.role == Patient
    requires db.Valid()
    modifies db`medications, db`reminders
    ensures db.Valid()
    ensures res.Fail? <==> OwnerGuard(old(db.medications), caller, id, "").Fail?
    ensures res.Fail? ==>
      res.status == OwnerGuard(old(db.medications), caller, id, "").status &&
      db.medications == old(db.medications) && db.reminders == old(db.reminders)
    ensures res.Ok? ==>
      res == Ok(OK, "Medication deleted successfully") &&
      db.medications == old(db.medications) - {id} &&
      db.reminders == WithoutMedication(old(db.reminders), id)
  {
    var guard := OwnerGuard(db.medications, caller, id, "Not authorized to delete this medication");
    if guard.Fail? {
      return Fail(guard.status, guard.message);
    }
    db.reminders := WithoutMedication(db.reminders, id);
    db.medications := db.medications - {id};
    res := Ok(OK, "Medication deleted successfully");
  }

  /** After the cascade no reminder refers to the deleted medication, and the
      reminders of every other medication are untouched. */
  lemma CascadeRemovesOnlyItsReminders(reminders: map<Id, Reminder>, medicationId: Id)
    ensures var after := WithoutMedication(reminders, medicationId);
      && (forall id :: id in after ==> after[id].medicationId != medicationId)
      && (forall id :: id in reminders && reminders[id].medicationId != medicationId ==>
            id in after && after[id] == reminders[id])
      && WithoutMedication(after, medicationId) == after
  {
  }

  // -------------------------------------------------------------- adherence

  /** The number of taken reminders in `rs`. */
  function CountTaken(rs: seq<Reminder>): (c: nat)
    ensures c <= |rs|
  {
    if rs == [] then 0 else (if rs[0].taken then 1 else 0) + CountTaken(rs[1..])
  }

  /** All reminders are taken exactly when the count is the length, and none
      is exactly when the count is 0. */
  lemma {:induction false} CountTakenExtremes(rs: seq<Reminder>)
    ensures CountTaken(rs) == |rs| <==> forall k :: 0 <= k < |rs| ==> rs[k].taken
    ensures CountTaken(rs) == 0 <==> forall k :: 0 <= k < |rs| ==> !rs[k].taken
  {
    if rs != [] {
      CountTakenExtremes(rs[1..]);
      assert forall k :: 1 <= k < |rs| ==> rs[k] == rs[1..][k - 1];
    }
  }

  datatype Adherence = Adherence(
    medicationId: Id,
    medicationName: string,
    totalReminders: nat,
    takenReminders: nat,
    missedReminders: nat,
    adherencePercentage: nat)

  /** The reminders counted for a medication: every reminder with its id,
      once each. */
  function RemindersOf(reminders: map<Id, Reminder>, n: nat, medicationId: Id): (rs: seq<Reminder>)
    requires Below(reminders, n)
    ensures forall x :: x in rs ==> x.medicationId == medicationId
    ensures forall id :: id in reminders && reminders[id].medicationId == medicationId ==> reminders[id] in rs
    ensures |rs| == |set id | id in reminders && reminders[id].medicationId == medicationId|
  {
    var mine := (r: Reminder) => r.medicationId == medicationId;
    SelectWhere(reminders, n, mine);
    IdsWhereCount(reminders, n, mine);
    assert Matching(reminders, n, mine) == set id | id in reminders && reminders[id].medicationId == medicationId;
    Select(reminders, IdsWhere(reminders, n, mine))
  }

  /** GET /api/medications/:id/adherence (the route admits Patients only):
      404, 403 for a non-owner, else the taken and missed counts over the
      medication's reminders and the rounded percentage (0 with none). */
  function GetAdherence(meds: map<Id, Medication>, reminders: map<Id, Reminder>, n: nat, caller: Caller, id: Id)
    : (r: Result<Adherence>)
    requires caller.role == Patient
    requires Below(reminders, n)
    ensures r.Fail? <==> OwnerGuard(meds, caller, id, "Not authorized").Fail?
    ensures r.Fail? ==> r.status == OwnerGuard(meds, caller, id, "Not authorized").status
    ensures r.Ok? ==>
      var a := r.value;
      var rs := RemindersOf(reminders, n, id);
      && r.status == OK && a.medicationId == id && a.medicationName == meds[id].name
      && a.totalReminders == |rs| == |set rid | rid in reminders && reminders[rid].medicationId == id|
      && a.takenReminders == CountTaken(rs)
      && a.takenReminders + a.missedReminders == a.totalReminders
      && a.adherencePercentage == Percentage(a.takenReminders, a.totalReminders)
      && a.adherencePercentage <= 100
  {
    var guard := OwnerGuard(meds, caller, id, "Not authorized");
    if guard.Fail? then Fail(guard.status, guard.message)
    else
      var rs := RemindersOf(reminders, n, id);
      var taken := CountTaken(rs);
      PercentageAtMostHundred(taken, |rs|);
      Ok(OK, Adherence(id, meds[id].name, |rs|, taken, |rs| - taken, Percentage(taken, |rs|)))
  }

  /** The percentage reads only the reminders' taken flags: two medication
      stores that differ in adherence counts give the same answer. */
  lemma AdherenceIgnoresAdherenceCount(
    meds: map<Id, Medication>, reminders: map<Id, Reminder>, n: nat, caller: Caller, id: Id, count: int)
    requires caller.role == Patient
    requires Below(reminders, n)
    requires id in meds
    ensures GetAdherence(meds[id := meds[id].(adherenceCount := count)], reminders, n, caller, id) ==
            GetAdherence(meds, reminders, n, caller, id)
  {
  }

  /** All reminders taken gives 100; none taken gives 0. */
  lemma AdherenceExtremes(meds: map<Id, Medication>, reminders: map<Id, Reminder>, n: nat, caller: Caller, id: Id)
    requires caller.role == Patient
    requires Below(reminders, n)
    requires GetAdherence(meds, reminders, n, caller, id).Ok?
    ensures var a := GetAdherence(meds, reminders, n, caller, id).value;
      var rs := RemindersOf(reminders, n, id);
      && ((forall k :: 0 <= k < |rs| ==> !rs[k].taken) ==> a.adherencePercentage == 0)
      && (|rs| > 0 && (forall k :: 0 <= k < |rs| ==> rs[k].taken) ==> a.adherencePercentage == 100)
  {
    var rs := RemindersOf(reminders, n, id);
    CountTakenExtremes(rs);
    PercentageExtremes(|rs|);
  }
}
