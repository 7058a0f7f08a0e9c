/** The stored record shapes (the Mongoose schemas): their enumerations,
    defaults, required fields and bounds. Dates are millisecond timestamps. */
module Models {
  import opened Common

  // ---------------------------------------------------------------- Medication

  datatype Frequency = Daily | Alternate | Custom

  function FrequencyName(f: Frequency): (s: string)
    ensures s in ["Daily", "Alternate", "Custom"]
  {
    match f
    case Daily => "Daily"
    case Alternate => "Alternate"
    case Custom => "Custom"
  }

  /** Enum validation of the schema: only the three names are accepted. */
  function ParseFrequency(s: string): (f: Option<Frequency>)
    ensures f.Some? <==> s in ["Daily", "Alternate", "Custom"]
    ensures f.Some? ==> FrequencyName(f.value) == s
  {
    if s == "Daily" then Some(Daily)
    else if s == "Alternate" then Some(Alternate)
    else if s == "Custom" then Some(Custom)
    else None
  }

  datatype NotificationType = Push | Email | Both

  function NotificationName(n: NotificationType): (s: string)
    ensures s in ["Push", "Email", "Both"]
  {
    match n
    case Push => "Push"
    case Email => "Email"
    case Both => "Both"
  }

  function ParseNotification(s: string): (n: Option<NotificationType>)
    ensures n.Some? <==> s in ["Push", "Email", "Both"]
    ensures n.Some? ==> NotificationName(n.value) == s
  {
    if s == "Push" then Some(Push)
    else if s == "Email" then Some(Email)
    else if s == "Both" then Some(Both)
    else None
  }

  datatype MedicationStatus = MedicationActive | MedicationInactive | MedicationCompleted

  function MedicationStatusName(st: MedicationStatus): (s: string)
    ensures s in ["Active", "Inactive", "Completed"]
  {
    match st
    case MedicationActive => "Active"
    case MedicationInactive => "Inactive"
    case MedicationCompleted => "Completed"
  }

  function ParseMedicationStatus(s: string): (st: Option<MedicationStatus>)
    ensures st.Some? <==> s in ["Active", "Inactive", "Completed"]
    ensures st.Some? ==> MedicationStatusName(st.value) == s
  {
    if s == "Active" then Some(MedicationActive)
    else if s == "Inactive" then Some(MedicationInactive)
    else if s == "Completed" then Some(MedicationCompleted)
    else None
  }

  const DefaultFrequency: Frequency := Daily
  const DefaultNotification: NotificationType := Push
  const DefaultMedicationStatus: MedicationStatus := MedicationActive
  const DefaultAdherenceCount: int := 0

  datatype Medication = Medication(
    userId: Id,
    prescriptionId: Option<Id>,
    name: string,
    dosage: string,
    frequency: Frequency,
    time: string,
    notificationType: NotificationType,
    status: MedicationStatus,
    adherenceCount: int)

  /** Required fields of the Medication schema are set. */
  predicate ValidMedication(m: Medication) {
    m.name != "" && m.dosage != "" && m.time != ""
  }

  // -------------------------------------------------------------- Prescription

  datatype PrescriptionStatus = Active | Expired

  function PrescriptionStatusName(st: PrescriptionStatus): (s: string)
    ensures s in ["Active", "Expired"]
  {
    match st
    case Active => "Active"
    case Expired => "Expired"
  }

  /** The schema's status enum validator. */
  function ParsePrescriptionStatus(s: string): (st: Option<PrescriptionStatus>)
    ensures st.Some? <==> s in ["Active", "Expired"]
    ensures st.Some? ==> PrescriptionStatusName(st.value) == s
  {
    if s == "Active" then Some(Active)
    else if s == "Expired" then Some(Expired)
    else None
  }

  const DefaultPrescriptionStatus: PrescriptionStatus := Active
  const DefaultNotes: string := ""

  datatype Prescription = Prescription(
    patientId: Id,
    doctorId: Id,
    medicineName: string,
    dosage: string,
    duration: int,
    notes: string,
    startDate: int,
    expiryDate: int,
    status: PrescriptionStatus,
    createdAt: int)

  /** Required string fields of the Prescription schema are set (the numeric
      and date fields are required too; their types make them present). */
  predicate ValidPrescription(p: Prescription) {
    p.medicineName != "" && p.dosage != ""
  }

  // ----------------------------------------------------------------- Inventory

  const DefaultLowStockThreshold: int := 10

  datatype InventoryItem = InventoryItem(
    pharmacistId: Id,
    name: string,
    batchNumber: string,
    manufacturer: string,
    expiryDate: int,
    quantity: int,
    price: int,
    lowStockThreshold: int)

  /** Required fields are set and the two `min: 0` bounds hold. */
  predicate ValidItem(i: InventoryItem) {
    i.name != "" && i.batchNumber != "" && i.manufacturer != "" &&
    i.quantity >= 0 && i.price >= 0
  }

  // ------------------------------------------------------------------ Reminder

  datatype Reminder = Reminder(
    userId: Id,
    medicationId: Id,
    time: string,
    date: int,
    taken: bool,
    snoozed: bool,
    snoozeCount: int)

  predicate ValidReminder(r: Reminder) {
    r.time != "" && r.snoozeCount >= 0
  }

  /** A reminder created with only its required fields: the schema fills in
      taken = false, snoozed = false and snoozeCount = 0. */
  function NewReminder(userId: Id, medicationId: Id, time: string, date: int): (r: Reminder)
    ensures r.userId == userId && r.medicationId == medicationId
    ensures r.time == time && r.date == date
    ensures !r.taken && !r.snoozed && r.snoozeCount == 0
    ensures time != "" ==> ValidReminder(r)
  {
    Reminder(userId, medicationId, time, date, false, false, 0)
  }

  // ---------------------------------------------------------------------- User

  /** A registered user. Only Doctors carry the doctor fields and only
      Pharmacists the pharmacist fields. */
  datatype User = User(
    fullName: string,
    email: string,
    password: string,
    role: Role,
    medicalLicense: Option<string>,
    specialization: Option<string>,
    pharmacyLicenseNumber: Option<string>,
    address: Option<string>)

  lemma FrequencyRoundTrip(f: Frequency, s: string)
    ensures ParseFrequency(FrequencyName(f)) == Some(f)
    ensures ParseFrequency(s).Some? ==> FrequencyName(ParseFrequency(s).value) == s
  {
  }

  lemma MedicationStatusRoundTrip(st: MedicationStatus, s: string)
    ensures ParseMedicationStatus(MedicationStatusName(st)) == Some(st)
    ensures ParseMedicationStatus(s).Some? ==> MedicationStatusName(ParseMedicationStatus(s).value) == s
  {
  }

  lemma PrescriptionStatusRoundTrip(st: PrescriptionStatus, s: string)
    ensures ParsePrescriptionStatus(PrescriptionStatusName(st)) == Some(st)
    ensures ParsePrescriptionStatus(s).Some? ==> PrescriptionStatusName(ParsePrescriptionStatus(s).value) == s
  {
  }

  lemma NotificationRoundTrip(n: NotificationType, s: string)
    ensures ParseNotification(NotificationName(n)) == Some(n)
    ensures ParseNotification(s).Some? ==> NotificationName(ParseNotification(s).value) == s
  {
  }
}
