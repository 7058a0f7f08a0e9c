/** The prescription controller: creation with its validation, expiry
    derivation and initial status; the read-time status resolver; the update
    path's status rules; and the role and ownership checks of the handlers. */
module Prescriptions {
  import opened Common
  import opened Models
  import opened Store

  // ----------------------------------------------------------------- create

  /** The body of POST /api/prescriptions. Dates are timestamps and the
      duration a whole number of days; absent fields are None. */
  datatype CreateRequest = CreateRequest(
    patientId: Option<Id>,
    patientEmail: Option<string>,
    medicineName: Option<string>,
    dosage: Option<string>,
    duration: Option<int>,
    notes: Option<string>,
    startDate: Option<int>,
    expiryDate: Option<int>)

  /** A duration is given when it is present and not 0 (0 is false in JavaScript). */
  predicate GivenNumber(field: Option<int>) {
    field.Some? && field.value != 0
  }

  /** The required-field check of creation. */
  predicate CreateFieldsGiven(req: CreateRequest) {
    (req.patientId.Some? || Given(req.patientEmail)) &&
    Given(req.medicineName) && Given(req.dosage) && req.startDate.Some? && GivenNumber(req.duration)
  }

  /** The first user, in store order, that has the lower-cased email and is a
      Patient: `User.findOne({ email: email.toLowerCase(), role: 'Patient' })`. */
  function PatientByEmail(users: map<Id, User>, n: nat, email: string): (found: Option<Id>)
    ensures found.Some? ==>
      found.value in users && users[found.value].email == ToLower(email) &&
      users[found.value].role == Patient
    ensures found.None? ==>
      forall id :: id < n && id in users ==> !(users[id].email == ToLower(email) && users[id].role == Patient)
  {
    var key := ToLower(email);
    var ids := IdsWhere(users, n, (u: User) => u.email == key && u.role == Patient);
    if ids == [] then None else Some(ids[0])
  }

  /** The expiry a prescription gets when none is supplied: `duration` days
      after the start date. */
  function DerivedExpiry(startDate: int, duration: int): (e: int)
    ensures e - startDate == duration * DayMs
  {
    startDate + duration * DayMs
  }

  /** The status a prescription is created with. */
  function StatusAt(expiryDate: int, now: int): (s: PrescriptionStatus)
    ensures s == Expired <==> expiryDate < now
  {
    if expiryDate < now then Expired else Active
  }

  /** The reply of POST /api/prescriptions (the route admits Doctors only):
      400 unless a patient reference and every required field is given; 404
      when the patient is named by an email no Patient has; otherwise the new
      record, issued by the caller, expiring at the supplied date or `duration`
      days after the start, Expired exactly when that lies before `now`. */
  function CreateReply(users: map<Id, User>, n: nat, caller: Caller, req: CreateRequest, now: int)
    : (r: Result<Prescription>)
    ensures !CreateFieldsGiven(req) ==> r.Fail? && r.status == BAD_REQUEST
    ensures CreateFieldsGiven(req) && req.patientId.None? && PatientByEmail(users, n, req.patientEmail.value).None? ==>
      r.Fail? && r.status == NOT_FOUND
    ensures r.Ok? <==>
      CreateFieldsGiven(req) && (req.patientId.Some? || PatientByEmail(users, n, req.patientEmail.value).Some?)
    ensures r.Ok? ==>
      var p := r.value;
      && r.status == CREATED
      && p.doctorId == caller.id
      && p.patientId == (if req.patientId.Some? then req.patientId.value
                         else PatientByEmail(users, n, req.patientEmail.value).value)
      && p.medicineName == req.medicineName.value && p.dosage == req.dosage.value
      && p.duration == req.duration.value && p.startDate == req.startDate.value
      && p.expiryDate == (if req.expiryDate.Some? then req.expiryDate.value
                          else DerivedExpiry(req.startDate.value, req.duration.value))
      && (p.status == Expired <==> p.expiryDate < now)
      && p.notes == (if req.notes.Some? then req.notes.value else DefaultNotes)
      && p.createdAt == now
      && ValidPrescription(p)
  {
    if !CreateFieldsGiven(req) then
      Fail(BAD_REQUEST, "Please provide patientId or patientEmail, medicineName, dosage, startDate, and duration")
    else
      var patient :=
        if req.patientId.Some? then req.patientId
        else PatientByEmail(users, n, req.patientEmail.value);
      if patient.None? then
        Fail(NOT_FOUND, "Patient not found with the provided email")
      else
        var expiry :=
          if req.expiryDate.Some? then req.expiryDate.value
          else DerivedExpiry(req.startDate.value, req.duration.value);
        var notes := if req.notes.Some? then req.notes.value else DefaultNotes;
        Ok(CREATED, Prescription(patient.value, caller.id, req.medicineName.value, req.dosage.value,
                                 req.duration.value, notes, req.startDate.value, expiry,
                                 StatusAt(expiry, now), now))
  }

  /** A prescription started 2024-01-01 for 10 days with no expiry expires on
      2024-01-11. */
  lemma TenDayPrescription(users: map<Id, User>, n: nat, caller: Caller, req: CreateRequest, now: int)
    requires req.patientId.Some? && Given(req.medicineName) && Given(req.dosage)
    requires req.duration == Some(10) && req.startDate == Some(1704067200000) && req.expiryDate.None?
    ensures var r := CreateReply(users, n, caller, req, now);
      r.Ok? && r.value.expiryDate == 1704931200000
  {
    assert CreateFieldsGiven(req);
    var r := CreateReply(users, n, caller, req, now);
    assert r.Ok?;
    assert r.value.expiryDate == DerivedExpiry(req.startDate.value, req.duration.value);
    assert DerivedExpiry(1704067200000, 10) == 1704931200000;
  }

  /** POST /api/prescriptions. */
  method CreatePrescription(db: Db, caller: Caller, req: CreateRequest, now: int)
    returns (res: Result<Prescription>, id: Id)
    requires caller.role == Doctor
    requires db.Valid()
    modifies db`prescriptions, db`nextId
    ensures db.Valid()
    ensures res == CreateReply(old(db.users), old(db.nextId), caller, req, now)
    ensures res.Ok? ==>
      id == old(db.nextId) && id !in old(db.prescriptions) &&
      db.prescriptions == old(db.prescriptions)[id := res.value]
    ensures res.Fail? ==> db.prescriptions == old(db.prescriptions) && db.nextId == old(db.nextId)
  {
    id := 0;
    res := CreateReply(db.users, db.nextId, caller, req, now);
    if res.Ok? {
      id := db.Allocate();
      db.prescriptions := db.prescriptions[id := res.value];
    }
  }

  // ------------------------------------------------------------ the resolver

  /** Read-time status resolution: an Active prescription whose expiry lies
      before `now` becomes Expired; nothing else changes, and an Expired one
      never becomes Active again. */
  function Resolve(p: Prescription, now: int): (r: Prescription)
    ensures r.status == Expired <==> (p.status == Expired || p.expiryDate < now)
    ensures r == p.(status := r.status)
  {
    if p.status.Active? && p.expiryDate < now then p.(status := Expired) else p
  }

  lemma ResolveIdempotent(p: Prescription, now: int)
    ensures Resolve(Resolve(p, now), now) == Resolve(p, now)
  {
  }

  /** Once resolved Expired, a prescription stays Expired at every later read. */
  lemma ResolveMonotone(p: Prescription, t1: int, t2: int)
    requires t1 <= t2
    ensures Resolve(p, t1).status == Expired ==> Resolve(Resolve(p, t1), t2).status == Expired
    ensures Resolve(Resolve(p, t1), t2) == Resolve(p, t2)
  {
  }

  /** The store after resolving the prescriptions listed in `ids`. */
  function ResolvedIn(m: map<Id, Prescription>, ids: seq<Id>, now: int): (r: map<Id, Prescription>)
    ensures r.Keys == m.Keys
    ensures forall id :: id in m ==> r[id] == if id in ids then Resolve(m[id], now) else m[id]
  {
    map id | id in m :: if id in ids then Resolve(m[id], now) else m[id]
  }

  /** The `for (let pres of prescriptions)` loop: demote and save each listed
      prescription that has expired; returns the listed records as resolved. */
  method ResolveListed(db: Db, ids: seq<Id>, now: int) returns (listed: seq<Prescription>)
    requires forall k :: 0 <= k < |ids| ==> ids[k] in db.prescriptions
    requires forall j, k :: 0 <= j < k < |ids| ==> ids[j] < ids[k]
    modifies db`prescriptions
    ensures db.prescriptions == ResolvedIn(old(db.prescriptions), ids, now)
    ensures |listed| == |ids|
    ensures forall k :: 0 <= k < |ids| ==> listed[k] == Resolve(old(db.prescriptions)[ids[k]], now)
    ensures listed == Select(db.prescriptions, ids)
  {
    listed := [];
    var k := 0;
    while k < |ids|
      invariant 0 <= k <= |ids|
      invariant db.prescriptions == ResolvedIn(old(db.prescriptions), ids[..k], now)
      invariant |listed| == k
      invariant forall j :: 0 <= j < k ==> listed[j] == Resolve(old(db.prescriptions)[ids[j]], now)
    {
      var id := ids[k];
      assert id !in ids[..k];
      var pres := db.prescriptions[id];
      if pres.status == Active && pres.expiryDate < now {
        pres := pres.(status := Expired);
        db.prescriptions := db.prescriptions[id := pres];
      }
      listed := listed + [pres];
      assert ids[..k + 1] == ids[..k] + [id];
      k := k + 1;
    }
    assert ids[..k] == ids;
    assert forall j :: 0 <= j < |ids| ==> db.prescriptions[ids[j]] == listed[j];
  }

  /** Whose prescriptions a role may list: a Patient its own, a Doctor those
      it issued, nobody else any. */
  predicate ListedFor(caller: Caller, p: Prescription) {
    (caller.role == Patient && p.patientId == caller.id) ||
    (caller.role == Doctor && p.doctorId == caller.id)
  }

  /** The listing filter of `caller`, as a value. */
  function ListedBy(caller: Caller): Prescription -> bool {
    (p: Prescription) => ListedFor(caller, p)
  }

  /** GET /api/prescriptions: 403 for Pharmacists and Admins; otherwise the
      caller's prescriptions, each resolved against `now` (and saved so). */
  method GetPrescriptions(db: Db, caller: Caller, now: int) returns (res: Result<seq<Prescription>>)
    requires db.Valid()
    modifies db`prescriptions
    ensures db.Valid()
    ensures res.Ok? <==> caller.role == Patient || caller.role == Doctor
    ensures res.Fail? ==> res.status == FORBIDDEN && db.prescriptions == old(db.prescriptions)
    ensures res.Ok? ==>
      var ids := IdsWhere(old(db.prescriptions), db.nextId, ListedBy(caller));
      && res.status == OK
      && db.prescriptions == ResolvedIn(old(db.prescriptions), ids, now)
      && res.value == Select(db.prescriptions, ids)
  {
    if caller.role == Patient || caller.role == Doctor {
      var ids := IdsWhere(db.prescriptions, db.nextId, ListedBy(caller));
      var listed := ResolveListed(db, ids, now);
      res := Ok(OK, listed);
    } else {
      res := Fail(FORBIDDEN, "Access denied for your role. Only Patient and Doctor roles are active in Module 3.");
    }
  }

  /** A listing shows each of the caller's prescriptions resolved, and only
      the caller's: for a Patient those naming it as patient, for a Doctor
      those it issued. */
  lemma ListingContents(m: map<Id, Prescription>, n: nat, caller: Caller, now: int)
    requires Below(m, n)
    ensures var ids := IdsWhere(m, n, ListedBy(caller));
      var after := ResolvedIn(m, ids, now);
      var shown := Select(after, ids);
      && (forall x :: x in shown ==> ListedFor(caller, x))
      && (forall id :: id in m && ListedFor(caller, m[id]) ==> Resolve(m[id], now) in shown)
      && (forall id :: id in m && !ListedFor(caller, m[id]) ==> after[id] == m[id])
  {
    var ids := IdsWhere(m, n, ListedBy(caller));
    var after := ResolvedIn(m, ids, now);
    var shown := Select(after, ids);
    forall id | id in m && ListedFor(caller, m[id])
      ensures Resolve(m[id], now) in shown
    {
      assert id in ids;
      var k :| 0 <= k < |ids| && ids[k] == id;
      assert shown[k] == after[id];
    }
  }

  /** GET /api/prescriptions/patient (the route admits Patients only). */
  method GetPatientPrescriptions(db: Db, caller: Caller, now: int) returns (res: Result<seq<Prescription>>)
    requires caller.role == Patient
    requires db.Valid()
    modifies db`prescriptions
    ensures db.Valid()
    ensures var ids := IdsWhere(old(db.prescriptions), db.nextId, (p: Prescription) => p.patientId == caller.id);
      && res.Ok? && res.status == OK
      && db.prescriptions == ResolvedIn(old(db.prescriptions), ids, now)
      && res.value == Select(db.prescriptions, ids)
  {
    var ids := IdsWhere(db.prescriptions, db.nextId, (p: Prescription) => p.patientId == caller.id);
    var listed := ResolveListed(db, ids, now);
    res := Ok(OK, listed);
  }

  /** GET /api/prescriptions/doctor (the route admits Doctors only). */
  method GetDoctorPrescriptions(db: Db, caller: Caller, now: int) returns (res: Result<seq<Prescription>>)
    requires caller.role == Doctor
    requires db.Valid()
    modifies db`prescriptions
    ensures db.Valid()
    ensures var ids := IdsWhere(old(db.prescriptions), db.nextId, (p: Prescription) => p.doctorId == caller.id);
      && res.Ok? && res.status == OK
      && db.prescriptions == ResolvedIn(old(db.prescriptions), ids, now)
      && res.value == Select(db.prescriptions, ids)
  {
    var ids := IdsWhere(db.prescriptions, db.nextId, (p: Prescription) => p.doctorId == caller.id);
    var listed := ResolveListed(db, ids, now);
    res := Ok(OK, listed);
  }

  // ------------------------------------------------------ single prescription

  /** GET /api/prescriptions/:id: 404 when missing; a Patient may read only
      its own and a Doctor only those it issued, while Pharmacists and Admins
      read any. The stored record is returned as it is, without resolution. */
  function GetPrescription(m: map<Id, Prescription>, caller: Caller, id: Id): (r: Result<Prescription>)
    ensures id !in m ==> r.Fail? && r.status == NOT_FOUND
    ensures r.Ok? <==>
      id in m &&
      (caller.role == Patient ==> m[id].patientId == caller.id) &&
      (caller.role == Doctor ==> m[id].doctorId == caller.id)
    ensures r.Fail? && id in m ==> r.status == FORBIDDEN
    ensures r.Ok? ==> r.status == OK && r.value == m[id]
  {
    if id !in m then Fail(NOT_FOUND, "Prescription not found")
    else if caller.role == Patient && m[id].patientId != caller.id then
      Fail(FORBIDDEN, "Not authorized to access this prescription")
    else if caller.role == Doctor && m[id].doctorId != caller.id then
      Fail(FORBIDDEN, "Not authorized to access this prescription")
    else Ok(OK, m[id])
  }

  /** Reading one prescription can show Active for one that a listing, at
      the same moment, would show Expired. */
  lemma SingleReadMayBeStale(m: map<Id, Prescription>, caller: Caller, id: Id, now: int)
    requires GetPrescription(m, caller, id).Ok?
    requires m[id].status == Active && m[id].expiryDate < now
    ensures GetPrescription(m, caller, id).value.status == Active
    ensures Resolve(m[id], now).status == Expired
  {
  }

  // ----------------------------------------------------- update and delete

  /** The checks shared by update and delete, in order: the record exists
      (404, before any role check), the caller is not a Patient (403), and a
      Doctor is the issuer (403). Pharmacists and Admins pass. */
  function ModifyGuard(m: map<Id, Prescription>, caller: Caller, id: Id, verb: string): (r: Result<Prescription>)
    ensures id !in m ==> r.Fail? && r.status == NOT_FOUND
    ensures id in m && caller.role == Patient ==> r.Fail? && r.status == FORBIDDEN
    ensures id in m && caller.role == Doctor && m[id].doctorId != caller.id ==> r.Fail? && r.status == FORBIDDEN
    ensures r.Ok? <==> id in m && caller.role != Patient && (caller.role == Doctor ==> m[id].doctorId == caller.id)
    ensures r.Ok? ==> r.value == m[id]
  {
    if id !in m then Fail(NOT_FOUND, "Prescription not found")
    else if caller.role == Patient then Fail(FORBIDDEN, "Patients cannot " + verb + " prescriptions")
    else if caller.role == Doctor && m[id].doctorId != caller.id then
      Fail(FORBIDDEN, "Not authorized to " + verb + " this prescription")
    else Ok(OK, m[id])
  }

  /** The body of PUT /api/prescriptions/:id: any stored field may be sent;
      the status arrives as the string the client sent. */
  datatype Patch = Patch(
    patientId: Option<Id>,
    doctorId: Option<Id>,
    medicineName: Option<string>,
    dosage: Option<string>,
    duration: Option<int>,
    notes: Option<string>,
    startDate: Option<int>,
    expiryDate: Option<int>,
    status: Option<string>,
    createdAt: Option<int>)

  /** The status string the update writes, if any. With a new expiry date it
      is recomputed both ways (replacing any status sent); without one, only
      an Active prescription past its stored expiry is demoted, and otherwise
      the status sent (if any) stands. */
  function UpdatedStatus(stored: Prescription, patch: Patch, now: int): (s: Option<string>)
    ensures patch.expiryDate.Some? ==> s == Some(PrescriptionStatusName(StatusAt(patch.expiryDate.value, now)))
    ensures patch.expiryDate.None? && stored.status == Active && stored.expiryDate < now ==> s == Some("Expired")
    ensures patch.expiryDate.None? && !(stored.status == Active && stored.expiryDate < now) ==> s == patch.status
  {
    if patch.expiryDate.Some? then Some(PrescriptionStatusName(StatusAt(patch.expiryDate.value, now)))
    else if stored.expiryDate < now && stored.status == Active then Some(PrescriptionStatusName(Expired))
    else patch.status
  }

  /** The validators `runValidators` applies to the update: no required
      string emptied, and a written status is one the enum accepts. */
  predicate UpdateAccepted(stored: Prescription, patch: Patch, now: int) {
    && patch.medicineName != Some("")
    && patch.dosage != Some("")
    && (UpdatedStatus(stored, patch, now).Some? ==>
          ParsePrescriptionStatus(UpdatedStatus(stored, patch, now).value).Some?)
  }

  /** The enum value of a written status name, if one is written. */
  function StoredStatus(s: Option<string>): Option<PrescriptionStatus> {
    if s.Some? then ParsePrescriptionStatus(s.value) else None
  }

  /** `findByIdAndUpdate`: every field sent replaces the stored one, the
      creation date included. */
  function ApplyPatch(p: Prescription, patch: Patch, status: Option<PrescriptionStatus>): Prescription {
    Prescription(
      Pick(patch.patientId, p.patientId), Pick(patch.doctorId, p.doctorId),
      Pick(patch.medicineName, p.medicineName), Pick(patch.dosage, p.dosage),
      Pick(patch.duration, p.duration), Pick(patch.notes, p.notes),
      Pick(patch.startDate, p.startDate), Pick(patch.expiryDate, p.expiryDate),
      Pick(status, p.status), Pick(patch.createdAt, p.createdAt))
  }

  /** The reply of PUT /api/prescriptions/:id: the guard's refusals first;
      a validator refusal is an unexpected error (500); otherwise the patched
      record, whose status is the one written, or the stored one. */
  function UpdateReply(m: map<Id, Prescription>, caller: Caller, id: Id, patch: Patch, now: int)
    : (r: Result<Prescription>)
    ensures ModifyGuard(m, caller, id, "update").Fail? ==> r == ModifyGuard(m, caller, id, "update")
    ensures r.Ok? <==> ModifyGuard(m, caller, id, "update").Ok? && UpdateAccepted(m[id], patch, now)
    ensures r.Fail? && ModifyGuard(m, caller, id, "update").Ok? ==> r.status == SERVER_ERROR
    ensures r.Ok? ==> r.status == OK
    ensures r.Ok? ==> r.value == ApplyPatch(m[id], patch, StoredStatus(UpdatedStatus(m[id], patch, now)))
    ensures r.Ok? && UpdatedStatus(m[id], patch, now).Some? ==>
      PrescriptionStatusName(r.value.status) == UpdatedStatus(m[id], patch, now).value
    ensures r.Ok? && UpdatedStatus(m[id], patch, now).None? ==> r.value.status == m[id].status
    ensures r.Ok? ==> ValidPrescription(m[id]) ==> ValidPrescription(r.value)
  {
    var guard := ModifyGuard(m, caller, id, "update");
    if guard.Fail? then guard
    else if !UpdateAccepted(m[id], patch, now) then Fail(SERVER_ERROR, "Validation failed")
    else Ok(OK, ApplyPatch(m[id], patch, StoredStatus(UpdatedStatus(m[id], patch, now))))
  }

  /** An update that sends a future expiry date re-activates an Expired
      prescription; one that sends a past expiry date expires it. */
  lemma UpdateRecomputesBothWays(m: map<Id, Prescription>, caller: Caller, id: Id, patch: Patch, now: int)
    requires UpdateReply(m, caller, id, patch, now).Ok?
    requires patch.expiryDate.Some?
    ensures UpdateReply(m, caller, id, patch, now).value.status == StatusAt(patch.expiryDate.value, now)
  {
    PrescriptionStatusRoundTrip(StatusAt(patch.expiryDate.value, now), "");
  }

  /** Without a new expiry date or status, an update changes the status only
      as the read-time resolver would: Active to Expired, never back. */
  lemma UpdateWithoutExpiryOnlyDemotes(m: map<Id, Prescription>, caller: Caller, id: Id, patch: Patch, now: int)
    requires UpdateReply(m, caller, id, patch, now).Ok?
    requires patch.expiryDate.None? && patch.status.None?
    ensures UpdateReply(m, caller, id, patch, now).value.status == Resolve(m[id], now).status
  {
  }

  /** An update that sends only `status: 'Active'` re-activates an Expired
      prescription even though its expiry date has passed. */
  lemma UpdateStatusFieldOverridesExpiry(m: map<Id, Prescription>, caller: Caller, id: Id, now: int)
    requires ModifyGuard(m, caller, id, "update").Ok?
    requires m[id].status == Expired && m[id].expiryDate < now
    ensures var patch := Patch(None, None, None, None, None, None, None, None, Some("Active"), None);
      var r := UpdateReply(m, caller, id, patch, now);
      r.Ok? && r.value.status == Active && r.value.expiryDate < now
  {
  }

  /** A status outside the enum, sent without an expiry date to a record the
      update does not demote, is refused by the validator with a 500. */
  lemma UnknownStatusRefused(m: map<Id, Prescription>, caller: Caller, id: Id, name: string, now: int)
    requires ModifyGuard(m, caller, id, "update").Ok?
    requires name != "Active" && name != "Expired"
    requires !(m[id].status == Active && m[id].expiryDate < now)
    ensures var patch := Patch(None, None, None, None, None, None, None, None, Some(name), None);
      UpdateReply(m, caller, id, patch, now) == Fail(SERVER_ERROR, "Validation failed")
  {
  }

  /** A new expiry date replaces whatever status was sent, so a status
      outside the enum is never validated and the update goes through. */
  lemma ExpiryDateReplacesSentStatus(m: map<Id, Prescription>, caller: Caller, id: Id, patch: Patch, now: int)
    requires ModifyGuard(m, caller, id, "update").Ok?
    requires patch.expiryDate.Some? && patch.medicineName != Some("") && patch.dosage != Some("")
    ensures UpdateReply(m, caller, id, patch, now).Ok?
    ensures UpdateReply(m, caller, id, patch, now).value.status == StatusAt(patch.expiryDate.value, now)
  {
    PrescriptionStatusRoundTrip(StatusAt(patch.expiryDate.value, now), "");
  }

  /** PUT /api/prescriptions/:id. */
  method UpdatePrescription(db: Db, caller: Caller, id: Id, patch: Patch, now: int)
    returns (res: Result<Prescription>)
    requires db.Valid()
    modifies db`prescriptions
    ensures db.Valid()
    ensures res == UpdateReply(old(db.prescriptions), caller, id, patch, now)
    ensures db.prescriptions == if res.Ok? then old(db.prescriptions)[id := res.value] else old(db.prescriptions)
  {
    var guard := ModifyGuard(db.prescriptions, caller, id, "update");
    if guard.Fail? {
      return guard;
    }
    var stored := db.prescriptions[id];
    var status := UpdatedStatus(stored, patch, now);
    if patch.medicineName == Some("") || patch.dosage == Some("") ||
       (status.Some? && ParsePrescriptionStatus(status.value).None?) {
      return Fail(SERVER_ERROR, "Validation failed");
    }
    var updated := ApplyPatch(stored, patch, StoredStatus(status));
    db.prescriptions := db.prescriptions[id := updated];
    res := Ok(OK, updated);
  }

  /** The reply of DELETE /api/prescriptions/:id (no route gate). */
  function DeleteReply(m: map<Id, Prescription>, caller: Caller, id: Id): (r: Result<string>)
    ensures r.Fail? <==> ModifyGuard(m, caller, id, "delete").Fail?
    ensures r.Fail? ==>
      r == Fail(ModifyGuard(m, caller, id, "delete").status, ModifyGuard(m, caller, id, "delete").message)
    ensures r.Ok? ==> r == Ok(OK, "Prescription deleted successfully")
  {
    var guard := ModifyGuard(m, caller, id, "delete");
    if guard.Fail? then Fail(guard.status, guard.message)
    else Ok(OK, "Prescription deleted successfully")
  }

  /** A Patient can never delete a prescription, while a Pharmacist or an
      Admin can delete any stored one. */
  lemma DeleteRoles(m: map<Id, Prescription>, caller: Caller, id: Id)
    requires id in m
    ensures caller.role == Patient ==> DeleteReply(m, caller, id).Fail?
    ensures caller.role in {Pharmacist, Admin} ==> DeleteReply(m, caller, id).Ok?
  {
  }

  /** DELETE /api/prescriptions/:id. */
  method DeletePrescription(db: Db, caller: Caller, id: Id) returns (res: Result<string>)
    requires db.Valid()
    modifies db`prescriptions
    ensures db.Valid()
    ensures res == DeleteReply(old(db.prescriptions), caller, id)
    ensures db.prescriptions == if res.Ok? then old(db.prescriptions) - {id} else old(db.prescriptions)
  {
    var guard := ModifyGuard(db.prescriptions, caller, id, "delete");
    if guard.Fail? {
      return Fail(guard.status, guard.message);
    }
    db.prescriptions := db.prescriptions - {id};
    res := Ok(OK, "Prescription deleted successfully");
  }
}
