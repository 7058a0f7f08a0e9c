/** The analytics controller: one dashboard per role, each refused with 403
    to every other role. Admin: store counts. Doctor: issued and active
    prescriptions and a six-month histogram. Pharmacist: inventory alerts.
    Patient: adherence rate, the trend series and recent prescriptions. */
module Analytics {
  import opened Common
  import opened Models
  import opened Store
  import opened Medications
  import opened Inventory

  // ------------------------------------------------------------------ Admin

  /** How many users below `n` hold the role stored as `name`:
      `User.countDocuments({ role: name })`. */
  function CountRole(users: map<Id, User>, n: nat, name: string): (c: nat)
    ensures c <= n
  {
    if n == 0 then 0
    else CountRole(users, n - 1, name) + (if n - 1 in users && RoleName(users[n - 1].role) == name then 1 else 0)
  }

  datatype AdminStats = AdminStats(
    totalUsers: nat, patients: nat, doctors: nat, pharmacists: nat,
    totalPrescriptions: nat, totalReminders: nat)

  /** The Admin view as written: pharmacists are counted under the role
      string "Pharmacy", which no user can hold. */
  function AdminAnalyticsAsWritten(
    users: map<Id, User>, n: nat, prescriptions: map<Id, Prescription>, reminders: map<Id, Reminder>, caller: Caller)
    : (r: Result<AdminStats>)
    ensures r.Fail? <==> caller.role != Admin
    ensures r.Fail? ==> r.status == FORBIDDEN
    ensures r.Ok? ==> r.status == OK && r.value.pharmacists == CountRole(users, n, "Pharmacy")
  {
    if caller.role != Admin then Fail(FORBIDDEN, "Access denied")
    else Ok(OK, AdminStats(|users|, CountRole(users, n, "Patient"), CountRole(users, n, "Doctor"),
                           CountRole(users, n, "Pharmacy"), |prescriptions|, |reminders|))
  }

  /** No role is stored as "Pharmacy", so that count is always 0. */
  lemma {:induction false} PharmacyNeverCounted(users: map<Id, User>, n: nat)
    ensures CountRole(users, n, "Pharmacy") == 0
  {
    if n > 0 {
      PharmacyNeverCounted(users, n - 1);
      if n - 1 in users {
        assert RoleName(users[n - 1].role) in ["Patient", "Doctor", "Pharmacist", "Admin"];
      }
    }
  }

  /** A store holding one registered Pharmacist: the as-written Admin view
      reports no pharmacists. */
  lemma PharmacistMissedByAdminView(u: User, prescriptions: map<Id, Prescription>, reminders: map<Id, Reminder>, caller: Caller)
    requires u.role == Pharmacist && caller.role == Admin
    ensures var r := AdminAnalyticsAsWritten(map[0 := u], 1, prescriptions, reminders, caller);
      r.Ok? && r.value.totalUsers == 1 && r.value.pharmacists == 0
    ensures CountRole(map[0 := u], 1, RoleName(Pharmacist)) == 1
  {
    PharmacyNeverCounted(map[0 := u], 1);
  }

  /** GET /api/analytics/admin, counting pharmacists by the role they are
      registered with. */
  function AdminAnalytics(
    users: map<Id, User>, n: nat, prescriptions: map<Id, Prescription>, reminders: map<Id, Reminder>, caller: Caller)
    : (r: Result<AdminStats>)
    ensures r.Fail? <==> caller.role != Admin
    ensures r.Fail? ==> r.status == FORBIDDEN
    ensures r.Ok? ==>
      && r.status == OK
      && r.value.totalUsers == |users| && r.value.totalPrescriptions == |prescriptions|
      && r.value.totalReminders == |reminders|
      && r.value.patients == CountRole(users, n, RoleName(Patient))
      && r.value.doctors == CountRole(users, n, RoleName(Doctor))
      && r.value.pharmacists == CountRole(users, n, RoleName(Pharmacist))
  {
    if caller.role != Admin then Fail(FORBIDDEN, "Access denied")
    else Ok(OK, AdminStats(|users|, CountRole(users, n, "Patient"), CountRole(users, n, "Doctor"),
                           CountRole(users, n, "Pharmacist"), |prescriptions|, |reminders|))
  }

  /** Every user holds exactly one of the four roles, so the four role counts
      add up to the number of users below `n`. */
  lemma {:induction false} RoleCountsPartition(users: map<Id, User>, n: nat)
    ensures CountRole(users, n, "Patient") + CountRole(users, n, "Doctor") +
            CountRole(users, n, "Pharmacist") + CountRole(users, n, "Admin") == CountBelow(users.Keys, n)
  {
    if n > 0 {
      RoleCountsPartition(users, n - 1);
    }
  }

  /** With pharmacists counted by their registered role, the Admin view's
      patients, doctors and pharmacists together with the admins make up
      every user. */
  lemma AdminCountsAddUp(
    users: map<Id, User>, n: nat, prescriptions: map<Id, Prescription>, reminders: map<Id, Reminder>, caller: Caller)
    requires Below(users, n) && caller.role == Admin
    ensures var s := AdminAnalytics(users, n, prescriptions, reminders, caller).value;
      s.patients + s.doctors + s.pharmacists + CountRole(users, n, RoleName(Admin)) == s.totalUsers
  {
    RoleCountsPartition(users, n);
    CountBelowSize(users.Keys, n);
    assert |users| == |users.Keys|;
  }

  // ----------------------------------------------------------------- Doctor

  /** The month containing instant `t`, counted as year * 12 + (month - 1)
      in the proleptic Gregorian calendar (UTC), from the day number
      `t / DayMs` by the usual era / year-of-era / day-of-year conversion
      with years starting in March. */
  function MonthIndex(t: int): int {
    var z := t / DayMs + 719468;
    var era := z / 146097;
    MonthIndexInEra(era, z - era * 146097)
  }

  function MonthIndexInEra(era: int, dayOfEra: int): int {
    var yearOfEra := YearOfEra(dayOfEra);
    MonthIndexInYear(yearOfEra + era * 400, dayOfEra - (365 * yearOfEra + yearOfEra / 4 - yearOfEra / 100))
  }

  function YearOfEra(dayOfEra: int): int {
    (dayOfEra - dayOfEra / 1460 + dayOfEra / 36524 - dayOfEra / 146096) / 365
  }

  /** `marchYear` counts years from March; `dayOfYear` 0 is March 1st. */
  function MonthIndexInYear(marchYear: int, dayOfYear: int): int {
    var mp := (5 * dayOfYear + 2) / 153;
    var month := if mp < 10 then mp + 3 else mp - 9;
    var year := marchYear + (if month <= 2 then 1 else 0);
    year * 12 + (month - 1)
  }

  /** 2024-01-01T00:00Z lies in January 2024, and 2024-02-29T12:00Z in February. */
  lemma MonthIndexExamples()
    ensures MonthIndex(1704067200000) == 2024 * 12 + 0
    ensures MonthIndex(1709208000000) == 2024 * 12 + 1
  {
    assert 1704067200000 / DayMs == 19723;
    assert (19723 + 719468) / 146097 == 5;
    assert YearOfEra(8706) == 23;
    assert MonthIndexInYear(2023, 306) == 2024 * 12;
    assert 1709208000000 / DayMs == 19782;
    assert (19782 + 719468) / 146097 == 5;
    assert YearOfEra(8765) == 23;
    assert MonthIndexInYear(2023, 365) == 2024 * 12 + 1;
  }

  /** The short month name of a month index, as a number: 0 is "Jan". */
  function MonthOfYear(index: int): (k: nat)
    ensures k < 12
  {
    index % 12
  }

  /** The history keys for the month `current`: the month names of the six
      months ending with it, oldest first. */
  function HistoryKeys(current: int): (keys: seq<nat>)
    ensures |keys| == 6
    ensures forall i :: 0 <= i < 6 ==> keys[i] == MonthOfYear(current - 5 + i)
    ensures keys[5] == MonthOfYear(current)
    ensures forall i, j :: 0 <= i < j < 6 ==> keys[i] != keys[j]
  {
    [MonthOfYear(current - 5), MonthOfYear(current - 4), MonthOfYear(current - 3),
     MonthOfYear(current - 2), MonthOfYear(current - 1), MonthOfYear(current)]
  }

  /** The history key a prescription is tallied under, if its date has one. */
  type MonthKey = Prescription -> Option<nat>

  /** As written: the handler reads `issuedDate`, a field the Prescription
      schema does not have; the date built from it is invalid and its month
      name ("Invalid Date") is no history key. */
  function IssuedDateMonth(p: Prescription): Option<nat> {
    None
  }

  /** Corrected: the month name of the date the prescription was created. */
  function CreatedAtMonth(p: Prescription): (k: Option<nat>)
    ensures k.Some? && k.value < 12
  {
    Some(MonthOfYear(MonthIndex(p.createdAt)))
  }

  /** How many of `ps` fall under history key `key`. */
  function Tally(ps: seq<Prescription>, key: nat, monthOf: MonthKey): (c: nat)
    ensures c <= |ps|
  {
    if ps == [] then 0
    else Tally(ps[..|ps| - 1], key, monthOf) + (if monthOf(ps[|ps| - 1]) == Some(key) then 1 else 0)
  }

  /** The two loops that build `last6Months`: six keys set to 0, oldest
      first, then one increment per prescription whose key is among them. */
  method History(ps: seq<Prescription>, current: int, monthOf: MonthKey)
    returns (keys: seq<nat>, history: map<nat, nat>)
    ensures keys == HistoryKeys(current)
    ensures forall k :: k in history <==> k in keys
    ensures forall k :: k in history ==> history[k] == Tally(ps, k, monthOf)
  {
    keys, history := [], map[];
    for i := 6 downto 0
      invariant keys == HistoryKeys(current)[..6 - i]
      invariant forall k :: k in history <==> k in keys
      invariant forall k :: k in history ==> history[k] == 0
    {
      var key := MonthOfYear(current - i);
      keys := keys + [key];
      history := history[key := 0];
    }
    for j := 0 to |ps|
      invariant forall k :: k in history <==> k in keys
      invariant forall k :: k in history ==> history[k] == Tally(ps[..j], k, monthOf)
    {
      assert ps[..j + 1][..j] == ps[..j];
      var key := monthOf(ps[j]);
      if key.Some? && key.value in history {
        history := history[key.value := history[key.value] + 1];
      }
    }
    assert ps[..|ps|] == ps;
  }

  /** As written, every history bucket stays 0 whatever was issued. */
  lemma {:induction false} IssuedDateHistoryEmpty(ps: seq<Prescription>, key: nat)
    ensures Tally(ps, key, IssuedDateMonth) == 0
  {
    if ps != [] {
      IssuedDateHistoryEmpty(ps[..|ps| - 1], key);
    }
  }

  /** A prescription created this month: the as-written bucket for this
      month reads 0, the corrected one 1. */
  lemma IssuedDateMissesThisMonth(p: Prescription, now: int)
    requires MonthIndex(p.createdAt) == MonthIndex(now)
    ensures Tally([p], HistoryKeys(MonthIndex(now))[5], IssuedDateMonth) == 0
    ensures Tally([p], HistoryKeys(MonthIndex(now))[5], CreatedAtMonth) == 1
  {
  }

  /** Buckets are keyed by month name alone: a prescription created twelve
      months before the current month is counted in the current month. */
  lemma SameMonthLastYearCounted(p: Prescription, current: int)
    requires MonthIndex(p.createdAt) == current - 12
    ensures CreatedAtMonth(p) == Some(HistoryKeys(current)[5])
  {
    YearEarlierSameKey(MonthIndex(p.createdAt), current);
  }

  lemma YearEarlierSameKey(m: int, current: int)
    requires m == current - 12
    ensures MonthOfYear(m) == MonthOfYear(current)
  {
    assert m % 12 == current % 12;
  }

  /** The total over the buckets of `keys`. */
  function SumTallies(ps: seq<Prescription>, keys: seq<nat>, monthOf: MonthKey): nat {
    if keys == [] then 0 else Tally(ps, keys[0], monthOf) + SumTallies(ps, keys[1..], monthOf)
  }

  /** How many of `keys` the key of `p` equals. */
  function Hits(p: Prescription, keys: seq<nat>, monthOf: MonthKey): nat {
    if keys == [] then 0 else (if monthOf(p) == Some(keys[0]) then 1 else 0) + Hits(p, keys[1..], monthOf)
  }

  lemma {:induction false} HitsAtMostOne(p: Prescription, keys: seq<nat>, monthOf: MonthKey)
    requires forall i, j :: 0 <= i < j < |keys| ==> keys[i] != keys[j]
    ensures Hits(p, keys, monthOf) <= 1
    ensures monthOf(p).None? || monthOf(p).value !in keys ==> Hits(p, keys, monthOf) == 0
  {
    if keys != [] {
      var rest := keys[1..];
      assert forall i, j :: 0 <= i < j < |rest| ==> rest[i] != rest[j] by {
        forall i, j | 0 <= i < j < |rest| ensures rest[i] != rest[j] {
          assert rest[i] == keys[i + 1] && rest[j] == keys[j + 1];
        }
      }
      HitsAtMostOne(p, rest, monthOf);
      if monthOf(p) == Some(keys[0]) {
        assert keys[0] !in rest;
      }
    }
  }

  lemma {:induction false} SumTalliesStep(ps: seq<Prescription>, keys: seq<nat>, monthOf: MonthKey)
    requires ps != []
    ensures SumTallies(ps, keys, monthOf) ==
            SumTallies(ps[..|ps| - 1], keys, monthOf) + Hits(ps[|ps| - 1], keys, monthOf)
  {
    if keys != [] {
      SumTalliesStep(ps, keys[1..], monthOf);
    }
  }

  /** Each prescription lands in at most one of distinct buckets, so the
      buckets never add up to more than were issued. */
  lemma {:induction false} TalliesAtMostIssued(ps: seq<Prescription>, keys: seq<nat>, monthOf: MonthKey)
    requires forall i, j :: 0 <= i < j < |keys| ==> keys[i] != keys[j]
    ensures SumTallies(ps, keys, monthOf) <= |ps|
  {
    if ps == [] {
      ZeroTallies(keys, monthOf);
    } else {
      TalliesAtMostIssued(ps[..|ps| - 1], keys, monthOf);
      SumTalliesStep(ps, keys, monthOf);
      HitsAtMostOne(ps[|ps| - 1], keys, monthOf);
    }
  }

  lemma {:induction false} ZeroTallies(keys: seq<nat>, monthOf: MonthKey)
    ensures SumTallies([], keys, monthOf) == 0
  {
    if keys != [] {
      ZeroTallies(keys[1..], monthOf);
    }
  }

  datatype DoctorStats = DoctorStats(totalIssued: nat, active: nat, months: seq<nat>, history: map<nat, nat>)

  /** The prescriptions issued by `doctor`, once each, in store order. */
  function IssuedBy(prescriptions: map<Id, Prescription>, n: nat, doctor: Id): (ps: seq<Prescription>)
    requires Below(prescriptions, n)
    ensures forall p :: p in ps ==> p.doctorId == doctor
    ensures forall id :: id in prescriptions && prescriptions[id].doctorId == doctor ==> prescriptions[id] in ps
    ensures |ps| == |set id | id in prescriptions && prescriptions[id].doctorId == doctor|
  {
    var issued := (p: Prescription) => p.doctorId == doctor;
    SelectWhere(prescriptions, n, issued);
    IdsWhereCount(prescriptions, n, issued);
    assert Matching(prescriptions, n, issued) == set id | id in prescriptions && prescriptions[id].doctorId == doctor;
    Select(prescriptions, IdsWhere(prescriptions, n, issued))
  }

  /** GET /api/analytics/doctor: 403 for a non-Doctor; otherwise the number
      of prescriptions the caller issued, how many are stored Active (no
      more than issued), and the six-month history keyed by month name,
      whose buckets add up to no more than were issued. `monthOf` is how a
      prescription's month is read: the handler as written is
      `GetDoctorAnalytics(db, caller, now, IssuedDateMonth)`, whose buckets
      all stay 0, and the corrected one reads `CreatedAtMonth`. */
  method GetDoctorAnalytics(db: Db, caller: Caller, now: int, monthOf: MonthKey) returns (res: Result<DoctorStats>)
    requires db.Valid()
    ensures res.Fail? <==> caller.role != Doctor
    ensures res.Fail? ==> res.status == FORBIDDEN
    ensures res.Ok? ==>
      var ps := IssuedBy(db.prescriptions, db.nextId, caller.id);
      var s := res.value;
      && res.status == OK
      && s.totalIssued == |ps| == |set id | id in db.prescriptions && db.prescriptions[id].doctorId == caller.id|
      && s.active == CountWhere(ps, (p: Prescription) => p.status == Active) && s.active <= s.totalIssued
      && s.months == HistoryKeys(MonthIndex(now))
      && (forall k :: k in s.history <==> k in s.months)
      && (forall k :: k in s.history ==> s.history[k] == Tally(ps, k, monthOf))
      && SumTallies(ps, s.months, monthOf) <= s.totalIssued
  {
    if caller.role != Doctor {
      return Fail(FORBIDDEN, "Access denied");
    }
    var ps := IssuedBy(db.prescriptions, db.nextId, caller.id);
    var active := CountWhere(ps, (p: Prescription) => p.status == Active);
    var keys, history := History(ps, MonthIndex(now), monthOf);
    TalliesAtMostIssued(ps, keys, monthOf);
    res := Ok(OK, DoctorStats(|ps|, active, keys, history));
  }

  /** Corrected keying: a prescription among `ps` created in the current
      month is counted in the current month's bucket. */
  lemma {:induction false} CreatedThisMonthCounted(ps: seq<Prescription>, p: Prescription, now: int)
    requires p in ps && MonthIndex(p.createdAt) == MonthIndex(now)
    ensures Tally(ps, HistoryKeys(MonthIndex(now))[5], CreatedAtMonth) >= 1
  {
    var last := ps[|ps| - 1];
    if last != p {
      assert p in ps[..|ps| - 1] by {
        var k :| 0 <= k < |ps| && ps[k] == p;
        assert k < |ps| - 1 && ps[..|ps| - 1][k] == p;
      }
      CreatedThisMonthCounted(ps[..|ps| - 1], p, now);
    }
  }

  // ------------------------------------------------------------- Pharmacist

  datatype PharmacyStats = PharmacyStats(
    totalItems: nat, totalValue: int, lowStock: nat, expired: nat, expiringSoon: nat)

  /** Sum of price times quantity. */
  function TotalValue(items: seq<InventoryItem>): (v: int)
    ensures (forall k :: 0 <= k < |items| ==> ValidItem(items[k])) ==> v >= 0
  {
    if items == [] then 0 else items[0].price * items[0].quantity + TotalValue(items[1..])
  }

  /** The analytics test for an expired item: its expiry instant is before now. */
  predicate ExpiredAt(item: InventoryItem, now: int) {
    item.expiryDate < now
  }

  /** GET /api/analytics/pharmacy: 403 for a non-Pharmacist; otherwise counts
      over every stored item, each at most the number of items. */
  function PharmacyAnalytics(inventory: map<Id, InventoryItem>, n: nat, caller: Caller, now: int)
    : (r: Result<PharmacyStats>)
    requires Below(inventory, n)
    ensures r.Fail? <==> caller.role != Pharmacist
    ensures r.Fail? ==> r.status == FORBIDDEN
    ensures r.Ok? ==>
      var items := All(inventory, n);
      var s := r.value;
      && r.status == OK && s.totalItems == |items| == |inventory| && s.totalValue == TotalValue(items)
      && s.lowStock == CountWhere(items, IsLowStock)
      && s.expired == CountWhere(items, (i: InventoryItem) => ExpiredAt(i, now))
      && s.expiringSoon == CountWhere(items, (i: InventoryItem) => IsExpiringSoon(i, now))
      && s.lowStock <= s.totalItems && s.expired <= s.totalItems && s.expiringSoon <= s.totalItems
  {
    if caller.role != Pharmacist then Fail(FORBIDDEN, "Access denied")
    else
      var items := All(inventory, n);
      Ok(OK, PharmacyStats(
        |items|, TotalValue(items), CountWhere(items, IsLowStock),
        CountWhere(items, (i: InventoryItem) => ExpiredAt(i, now)),
        CountWhere(items, (i: InventoryItem) => IsExpiringSoon(i, now))))
  }

  /** An item that expired less than a day ago counts as both expired and
      expiring soon here, while the inventory listing flags it only as
      expiring soon. */
  lemma ExpiredWithinADay(item: InventoryItem, now: int)
    requires now - DayMs < item.expiryDate < now
    ensures ExpiredAt(item, now) && IsExpiringSoon(item, now)
    ensures !IsExpired(item, now)
  {
    ExpiryFlagsByInstant(item, now);
  }

  // ---------------------------------------------------------------- Patient

  datatype PatientStats = PatientStats(
    totalMedicines: nat, rate: nat, taken: nat, missed: nat, total: nat,
    trends: seq<nat>, history: seq<Prescription>)

  /** The placeholder weekly series: three fixed values, then the real rate. */
  const TrendPlaceholder: seq<nat> := [65, 72, 68]

  /** How many medications `find({ userId })` returns: one per stored medication of the user. */
  function MedicineCount(meds: map<Id, Medication>, n: nat, user: Id): (c: nat)
    requires Below(meds, n)
    ensures c == |set id | id in meds && meds[id].userId == user|
  {
    var mine := (m: Medication) => m.userId == user;
    IdsWhereCount(meds, n, mine);
    assert Matching(meds, n, mine) == set id | id in meds && meds[id].userId == user;
    |IdsWhere(meds, n, mine)|
  }

  /** The caller's reminders, once each, in store order. */
  function RemindersOfUser(reminders: map<Id, Reminder>, n: nat, user: Id): (rs: seq<Reminder>)
    requires Below(reminders, n)
    ensures forall x :: x in rs ==> x.userId == user
    ensures forall id :: id in reminders && reminders[id].userId == user ==> reminders[id] in rs
    ensures |rs| == |set id | id in reminders && reminders[id].userId == user|
  {
    var mine := (r: Reminder) => r.userId == user;
    SelectWhere(reminders, n, mine);
    IdsWhereCount(reminders, n, mine);
    assert Matching(reminders, n, mine) == set id | id in reminders && reminders[id].userId == user;
    Select(reminders, IdsWhere(reminders, n, mine))
  }

  /** The patient's prescriptions, once each, in store order. */
  function PrescriptionsOf(prescriptions: map<Id, Prescription>, n: nat, patient: Id): (ps: seq<Prescription>)
    requires Below(prescriptions, n)
    ensures forall p :: p in ps ==> p.patientId == patient
    ensures forall id :: id in prescriptions && prescriptions[id].patientId == patient ==> prescriptions[id] in ps
    ensures |ps| == |set id | id in prescriptions && prescriptions[id].patientId == patient|
  {
    var mine := (p: Prescription) => p.patientId == patient;
    SelectWhere(prescriptions, n, mine);
    IdsWhereCount(prescriptions, n, mine);
    assert Matching(prescriptions, n, mine) == set id | id in prescriptions && prescriptions[id].patientId == patient;
    Select(prescriptions, IdsWhere(prescriptions, n, mine))
  }

  /** The figures of the patient dashboard for one user: the number of their
      medications, the taken and missed counts over their reminders and the
      rounded rate, the trend series ending in that rate, and at most five of
      their prescriptions. */
  function PatientStatsFor(
    meds: map<Id, Medication>, reminders: map<Id, Reminder>, prescriptions: map<Id, Prescription>,
    n: nat, user: Id)
    : (s: PatientStats)
    requires Below(meds, n) && Below(reminders, n) && Below(prescriptions, n)
    ensures var rs := RemindersOfUser(reminders, n, user);
      var ps := PrescriptionsOf(prescriptions, n, user);
      && s.totalMedicines == MedicineCount(meds, n, user)
      && s.total == |rs|
      && s.taken == CountTaken(rs)
      && s.taken + s.missed == s.total
      && s.rate == Percentage(s.taken, s.total) && s.rate <= 100
      && s.trends == TrendPlaceholder + [s.rate]
      && |s.history| == (if |ps| < 5 then |ps| else 5)
      && s.history == ps[..|s.history|]
      && (forall p :: p in s.history ==> p.patientId == user)
  {
    var rs := RemindersOfUser(reminders, n, user);
    var ps := PrescriptionsOf(prescriptions, n, user);
    var taken := CountTaken(rs);
    var rate := Percentage(taken, |rs|);
    PercentageAtMostHundred(taken, |rs|);
    var recent := if |ps| < 5 then ps else ps[..5];
    assert forall p :: p in recent ==> p in ps;
    PatientStats(MedicineCount(meds, n, user),
                 rate, taken, |rs| - taken, |rs|, TrendPlaceholder + [rate], recent)
  }

  /** GET /api/analytics/patient: 403 for a non-Patient; otherwise the
      dashboard figures of the caller. */
  function PatientAnalytics(
    meds: map<Id, Medication>, reminders: map<Id, Reminder>, prescriptions: map<Id, Prescription>,
    n: nat, caller: Caller)
    : (r: Result<PatientStats>)
    requires Below(meds, n) && Below(reminders, n) && Below(prescriptions, n)
    ensures r.Fail? <==> caller.role != Patient
    ensures r.Fail? ==> r.status == FORBIDDEN
    ensures r.Ok? ==> r.status == OK && r.value == PatientStatsFor(meds, reminders, prescriptions, n, caller.id)
  {
    if caller.role != Patient then Fail(FORBIDDEN, "Access denied")
    else Ok(OK, PatientStatsFor(meds, reminders, prescriptions, n, caller.id))
  }

  /** The trend series has four entries and only the last one depends on the
      patient's reminders. */
  lemma TrendsFixedButLast(
    meds: map<Id, Medication>, reminders: map<Id, Reminder>, reminders': map<Id, Reminder>,
    prescriptions: map<Id, Prescription>, n: nat, caller: Caller)
    requires Below(meds, n) && Below(reminders, n) && Below(reminders', n) && Below(prescriptions, n)
    requires caller.role == Patient
    ensures var t := PatientAnalytics(meds, reminders, prescriptions, n, caller).value.trends;
      var t' := PatientAnalytics(meds, reminders', prescriptions, n, caller).value.trends;
      |t| == 4 && t[..3] == t'[..3] == [65, 72, 68]
  {
  }
}
