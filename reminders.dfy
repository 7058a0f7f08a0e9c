/** The reminder controller: the occurrence generator that turns a
    medication's frequency into a 30-day batch of reminders, the
    taken / snooze lifecycle of one reminder, and the day-window queries. */
module Reminders {
  import opened Common
  import opened Models
  import opened Store

  // ------------------------------------------------------ occurrence generator

  /** Reminders are generated for the 30 days starting today. */
  const Horizon: nat := 30

  /** Whether day offset `i` of the horizon gets a reminder. The frequency is
      the raw request string: only the three schema names schedule anything. */
  predicate Scheduled(frequency: string, i: nat) {
    frequency == "Daily" || (frequency == "Alternate" && i % 2 == 0) || frequency == "Custom"
  }

  /** The scheduled offsets among 0 .. n-1, in increasing order. */
  function Offsets(frequency: string, n: nat): (os: seq<nat>)
    ensures forall k :: 0 <= k < |os| ==> os[k] < n && Scheduled(frequency, os[k])
    ensures forall j, k :: 0 <= j < k < |os| ==> os[j] < os[k]
  {
    if n == 0 then []
    else Offsets(frequency, n - 1) + (if Scheduled(frequency, n - 1) then [n - 1] else [])
  }

  /** No scheduled day is skipped. */
  lemma {:induction false} OffsetsComplete(frequency: string, n: nat, i: nat)
    requires i < n && Scheduled(frequency, i)
    ensures i in Offsets(frequency, n)
  {
    if i < n - 1 {
      OffsetsComplete(frequency, n - 1, i);
    }
  }

  /** The reminders the generator builds for the first `n` days from `today`:
      one fresh reminder per scheduled offset, dated that many days later. */
  function Batch(userId: Id, medicationId: Id, frequency: string, time: string, today: int, n: nat)
    : (b: seq<Reminder>)
    ensures |b| <= n
  {
    if n == 0 then []
    else
      Batch(userId, medicationId, frequency, time, today, n - 1) +
      (if Scheduled(frequency, n - 1)
       then [NewReminder(userId, medicationId, time, today + (n - 1) * DayMs)]
       else [])
  }

  /** The k-th reminder of a batch is dated at the k-th scheduled offset. */
  lemma {:induction false} BatchAtOffsets(
    userId: Id, medicationId: Id, frequency: string, time: string, today: int, n: nat)
    ensures var b := Batch(userId, medicationId, frequency, time, today, n);
      var os := Offsets(frequency, n);
      |b| == |os| &&
      forall k :: 0 <= k < |b| ==> b[k] == NewReminder(userId, medicationId, time, today + os[k] * DayMs)
  {
    if n > 0 {
      BatchAtOffsets(userId, medicationId, frequency, time, today, n - 1);
    }
  }

  lemma {:induction false} EveryDayOffsets(frequency: string, n: nat)
    requires frequency == "Daily" || frequency == "Custom"
    ensures |Offsets(frequency, n)| == n
    ensures forall k :: 0 <= k < n ==> Offsets(frequency, n)[k] == k
  {
    if n > 0 {
      EveryDayOffsets(frequency, n - 1);
    }
  }

  lemma {:induction false} EvenDayOffsets(frequency: string, n: nat)
    requires frequency == "Alternate"
    ensures |Offsets(frequency, n)| == (n + 1) / 2
    ensures forall k :: 0 <= k < (n + 1) / 2 ==> Offsets(frequency, n)[k] == 2 * k
  {
    if n > 0 {
      EvenDayOffsets(frequency, n - 1);
    }
  }

  lemma {:induction false} NoOffsets(frequency: string, n: nat)
    requires frequency !in ["Daily", "Alternate", "Custom"]
    ensures Offsets(frequency, n) == []
  {
    if n > 0 {
      NoOffsets(frequency, n - 1);
    }
  }

  /** Daily and Custom: 30 reminders, one per consecutive day from today. */
  lemma DailyBatch(userId: Id, medicationId: Id, frequency: string, time: string, today: int)
    requires frequency == "Daily" || frequency == "Custom"
    ensures var b := Batch(userId, medicationId, frequency, time, today, Horizon);
      |b| == 30 &&
      forall k :: 0 <= k < 30 ==> b[k] == NewReminder(userId, medicationId, time, today + k * DayMs)
  {
    EveryDayOffsets(frequency, Horizon);
    BatchAtOffsets(userId, medicationId, frequency, time, today, Horizon);
  }

  /** Alternate: 15 reminders, at day offsets 0, 2, ..., 28. */
  lemma AlternateBatch(userId: Id, medicationId: Id, frequency: string, time: string, today: int)
    requires frequency == "Alternate"
    ensures var b := Batch(userId, medicationId, frequency, time, today, Horizon);
      |b| == 15 &&
      forall k :: 0 <= k < 15 ==> b[k] == NewReminder(userId, medicationId, time, today + 2 * k * DayMs)
  {
    EvenDayOffsets(frequency, Horizon);
    BatchAtOffsets(userId, medicationId, frequency, time, today, Horizon);
  }

  /** Any other frequency string: nothing. */
  lemma OtherBatch(userId: Id, medicationId: Id, frequency: string, time: string, today: int)
    requires frequency !in ["Daily", "Alternate", "Custom"]
    ensures Batch(userId, medicationId, frequency, time, today, Horizon) == []
  {
    NoOffsets(frequency, Horizon);
    BatchAtOffsets(userId, medicationId, frequency, time, today, Horizon);
  }

  /** Every generated reminder is a fresh one for the given user, medication
      and time, dated within the horizon, and the dates strictly increase, so
      no batch holds two reminders for the same medication, day and time. */
  lemma BatchShape(userId: Id, medicationId: Id, frequency: string, time: string, today: int)
    ensures var b := Batch(userId, medicationId, frequency, time, today, Horizon);
      && (forall k :: 0 <= k < |b| ==>
            b[k].userId == userId && b[k].medicationId == medicationId && b[k].time == time &&
            !b[k].taken && !b[k].snoozed && b[k].snoozeCount == 0 &&
            today <= b[k].date < today + Horizon * DayMs)
      && (forall j, k :: 0 <= j < k < |b| ==> b[j].date < b[k].date)
  {
    BatchShapeWithin(userId, medicationId, frequency, time, today, Horizon);
  }

  lemma BatchShapeWithin(userId: Id, medicationId: Id, frequency: string, time: string, today: int, n: nat)
    ensures var b := Batch(userId, medicationId, frequency, time, today, n);
      && (forall k :: 0 <= k < |b| ==>
            b[k].userId == userId && b[k].medicationId == medicationId && b[k].time == time &&
            !b[k].taken && !b[k].snoozed && b[k].snoozeCount == 0 &&
            today <= b[k].date < today + n * DayMs)
      && (forall j, k :: 0 <= j < k < |b| ==> b[j].date < b[k].date)
  {
    BatchAtOffsets(userId, medicationId, frequency, time, today, n);
    ShapeAtOffsets(Batch(userId, medicationId, frequency, time, today, n), Offsets(frequency, n),
                   userId, medicationId, time, today, n);
  }

  /** Fresh reminders dated at increasing offsets below `n`. */
  lemma ShapeAtOffsets(b: seq<Reminder>, os: seq<nat>, userId: Id, medicationId: Id, time: string, today: int, n: nat)
    requires |b| == |os|
    requires forall k :: 0 <= k < |b| ==> b[k] == NewReminder(userId, medicationId, time, today + os[k] * DayMs)
    requires forall k :: 0 <= k < |os| ==> os[k] < n
    requires forall j, k :: 0 <= j < k < |os| ==> os[j] < os[k]
    ensures forall k :: 0 <= k < |b| ==>
              b[k].userId == userId && b[k].medicationId == medicationId && b[k].time == time &&
              !b[k].taken && !b[k].snoozed && b[k].snoozeCount == 0 &&
              today <= b[k].date < today + n * DayMs
    ensures forall j, k :: 0 <= j < k < |b| ==> b[j].date < b[k].date
  {
    forall k | 0 <= k < |b|
      ensures today <= b[k].date < today + n * DayMs
    {
      DayWithin(today, os[k], n);
    }
    forall j, k | 0 <= j < k < |b|
      ensures b[j].date < b[k].date
    {
      DaysIncrease(today, os[j], os[k]);
    }
  }

  lemma DayWithin(today: int, offset: nat, n: nat)
    requires offset < n
    ensures today <= today + offset * DayMs < today + n * DayMs
  {
    MulMonotone(DayMs, offset + 1, n);
  }

  lemma DaysIncrease(today: int, i: nat, j: nat)
    requires i < j
    ensures today + i * DayMs < today + j * DayMs
  {
    MulMonotone(DayMs, i + 1, j);
  }

  /** The `for (let i = 0; i < 30; i++)` loop of the generator. */
  method BuildBatch(userId: Id, medicationId: Id, frequency: string, time: string, today: int)
    returns (batch: seq<Reminder>)
    ensures batch == Batch(userId, medicationId, frequency, time, today, Horizon)
  {
    batch := [];
    for i := 0 to Horizon
      invariant batch == Batch(userId, medicationId, frequency, time, today, i)
    {
      var date := today + i * DayMs;
      if frequency == "Daily" {
        batch := batch + [NewReminder(userId, medicationId, time, date)];
      } else if frequency == "Alternate" {
        if i % 2 == 0 {
          batch := batch + [NewReminder(userId, medicationId, time, date)];
        }
      } else if frequency == "Custom" {
        batch := batch + [NewReminder(userId, medicationId, time, date)];
      }
    }
  }

  /** Builds the batch from today's midnight and inserts it when it is not
      empty; returns what was inserted (nothing for an unknown frequency). */
  method GenerateRemindersForMedication(
    db: Db, userId: Id, medicationId: Id, frequency: string, time: string, now: int)
    returns (inserted: seq<Reminder>)
    requires db.Valid()
    modifies db`reminders, db`nextId
    ensures db.Valid()
    ensures inserted == Batch(userId, medicationId, frequency, time, Midnight(now), Horizon)
    ensures Appended(old(db.reminders), db.reminders, old(db.nextId), inserted)
    ensures db.nextId == old(db.nextId) + |inserted|
  {
    var batch := BuildBatch(userId, medicationId, frequency, time, Midnight(now));
    if |batch| > 0 {
      var start := db.nextId;
      var k := 0;
      while k < |batch|
        invariant 0 <= k <= |batch|
        invariant db.Valid() && db.nextId == start + k
        invariant Appended(old(db.reminders), db.reminders, start, batch[..k])
      {
        var id := db.Allocate();
        db.reminders := db.reminders[id := batch[k]];
        k := k + 1;
      }
      assert batch[..k] == batch;
      inserted := batch;
    } else {
      inserted := [];
    }
  }

  /** POST /api/reminders/generate. */
  method GenerateReminders(
    db: Db, caller: Caller, medicationId: Option<Id>, frequency: Option<string>,
    time: Option<string>, now: int)
    returns (res: Result<seq<Reminder>>)
    requires db.Valid()
    modifies db`reminders, db`nextId
    ensures db.Valid()
    ensures caller.role != Patient ==>
      res.Fail? && res.status == FORBIDDEN && unchanged(db)
    ensures caller.role == Patient && !(medicationId.Some? && Given(frequency) && Given(time)) ==>
      res.Fail? && res.status == BAD_REQUEST && unchanged(db)
    ensures caller.role == Patient && medicationId.Some? && Given(frequency) && Given(time) ==>
      && res == Ok(CREATED, Batch(caller.id, medicationId.value, frequency.value, time.value, Midnight(now), Horizon))
      && Appended(old(db.reminders), db.reminders, old(db.nextId), res.value)
  {
    if caller.role != Patient {
      return Fail(FORBIDDEN, "Access denied. Only patients can generate reminders");
    }
    if medicationId.None? || !Given(frequency) || !Given(time) {
      return Fail(BAD_REQUEST, "Please provide medicationId, frequency, and time");
    }
    var inserted := GenerateRemindersForMedication(
      db, caller.id, medicationId.value, frequency.value, time.value, now);
    res := Ok(CREATED, inserted);
  }

  // --------------------------------------------------------------- lifecycle

  /** The two collections the lifecycle handlers read and write. */
  datatype Lifecycle = Lifecycle(reminders: map<Id, Reminder>, medications: map<Id, Medication>)

  /** Marking taken sets taken and clears snoozed; nothing else changes. */
  function Take(r: Reminder): (t: Reminder)
    ensures t.taken && !t.snoozed
    ensures t.snoozeCount == r.snoozeCount && t.userId == r.userId
    ensures t.medicationId == r.medicationId && t.time == r.time && t.date == r.date
  {
    r.(taken := true, snoozed := false)
  }

  /** Snoozing sets snoozed and counts one more snooze; taken is kept. */
  function SnoozeOnce(r: Reminder): (t: Reminder)
    ensures t.snoozed && t.snoozeCount == r.snoozeCount + 1 && t.taken == r.taken
    ensures t.userId == r.userId && t.medicationId == r.medicationId
    ensures t.time == r.time && t.date == r.date
  {
    r.(snoozed := true, snoozeCount := r.snoozeCount + 1)
  }

  /** One more taken dose on the medication, if it still exists. */
  function Credit(meds: map<Id, Medication>, medicationId: Id): (c: map<Id, Medication>)
    ensures c.Keys == meds.Keys
    ensures forall id :: id in meds && id != medicationId ==> c[id] == meds[id]
    ensures medicationId in meds ==>
      c[medicationId] == meds[medicationId].(adherenceCount := meds[medicationId].adherenceCount + 1)
  {
    if medicationId in meds
    then meds[medicationId := meds[medicationId].(adherenceCount := meds[medicationId].adherenceCount + 1)]
    else meds
  }

  /** The reply of PUT /api/reminders/mark-taken. The guards run in order:
      role, id supplied, reminder exists, requester owns it. */
  function MarkTakenReply(s: Lifecycle, caller: Caller, reminderId: Option<Id>): (r: Result<Reminder>)
    ensures caller.role != Patient ==> r.Fail? && r.status == FORBIDDEN
    ensures caller.role == Patient && reminderId.None? ==> r.Fail? && r.status == BAD_REQUEST
    ensures caller.role == Patient && reminderId.Some? && reminderId.value !in s.reminders ==>
      r.Fail? && r.status == NOT_FOUND
    ensures (caller.role == Patient && reminderId.Some? && reminderId.value in s.reminders &&
             s.reminders[reminderId.value].userId != caller.id) ==> r.Fail? && r.status == FORBIDDEN
    ensures r.Ok? <==>
      caller.role == Patient && reminderId.Some? && reminderId.value in s.reminders &&
      s.reminders[reminderId.value].userId == caller.id
    ensures r.Ok? ==> r.status == OK && r.value == Take(s.reminders[reminderId.value])
  {
    if caller.role != Patient then
      Fail(FORBIDDEN, "Access denied. Only patients can mark reminders as taken")
    else if reminderId.None? then
      Fail(BAD_REQUEST, "Please provide reminder ID")
    else if reminderId.value !in s.reminders then
      Fail(NOT_FOUND, "Reminder not found")
    else if s.reminders[reminderId.value].userId != caller.id then
      Fail(FORBIDDEN, "Not authorized to update this reminder")
    else
      Ok(OK, Take(s.reminders[reminderId.value]))
  }

  /** The state after mark-taken: unchanged on any failure; otherwise the
      reminder is taken and its medication (if any) credited, whether or not
      the reminder was already taken. */
  function MarkTakenNext(s: Lifecycle, caller: Caller, reminderId: Option<Id>): (t: Lifecycle)
    ensures t.reminders.Keys == s.reminders.Keys && t.medications.Keys == s.medications.Keys
  {
    if MarkTakenReply(s, caller, reminderId).Fail? then s
    else
      var id := reminderId.value;
      Lifecycle(s.reminders[id := Take(s.reminders[id])], Credit(s.medications, s.reminders[id].medicationId))
  }

  /** On any failed guard neither the reminder nor the medication changes. */
  lemma MarkTakenFailureChangesNothing(s: Lifecycle, caller: Caller, reminderId: Option<Id>)
    requires MarkTakenReply(s, caller, reminderId).Fail?
    ensures MarkTakenNext(s, caller, reminderId) == s
  {
  }

  /** A successful mark-taken: the reminder is taken, not snoozed, keeps its
      snooze count, and its medication's adherence count grows by exactly one;
      a missing medication is tolerated and the reminder is still saved. */
  lemma MarkTakenEffect(s: Lifecycle, caller: Caller, id: Id)
    requires MarkTakenReply(s, caller, Some(id)).Ok?
    ensures var t := MarkTakenNext(s, caller, Some(id));
      var r := s.reminders[id];
      && t.reminders.Keys == s.reminders.Keys
      && t.reminders[id].taken && !t.reminders[id].snoozed
      && t.reminders[id].snoozeCount == r.snoozeCount
      && (forall other :: other in s.reminders && other != id ==> t.reminders[other] == s.reminders[other])
      && (r.medicationId in s.medications ==>
            t.medications[r.medicationId].adherenceCount == s.medications[r.medicationId].adherenceCount + 1)
      && (r.medicationId !in s.medications ==> t.medications == s.medications)
  {
  }

  /** Marking the same reminder taken twice counts two doses: the reminder
      ends as after one call, but the adherence count grows by two. */
  lemma MarkTakenTwiceCountsTwice(s: Lifecycle, caller: Caller, id: Id)
    requires MarkTakenReply(s, caller, Some(id)).Ok?
    requires s.reminders[id].medicationId in s.medications
    ensures var once := MarkTakenNext(s, caller, Some(id));
      var twice := MarkTakenNext(once, caller, Some(id));
      var m := s.reminders[id].medicationId;
      && MarkTakenReply(once, caller, Some(id)).Ok?
      && twice.reminders == once.reminders
      && twice.medications[m].adherenceCount == s.medications[m].adherenceCount + 2
  {
    var once := MarkTakenNext(s, caller, Some(id));
    assert once.reminders[id] == Take(s.reminders[id]);
    assert Take(Take(s.reminders[id])) == Take(s.reminders[id]);
  }

  /** PUT /api/reminders/mark-taken. */
  method MarkTaken(db: Db, caller: Caller, reminderId: Option<Id>) returns (res: Result<Reminder>)
    requires db.Valid()
    modifies db`reminders, db`medications
    ensures db.Valid()
    ensures res == MarkTakenReply(Lifecycle(old(db.reminders), old(db.medications)), caller, reminderId)
    ensures Lifecycle(db.reminders, db.medications) ==
      MarkTakenNext(Lifecycle(old(db.reminders), old(db.medications)), caller, reminderId)
  {
    if caller.role != Patient {
      return Fail(FORBIDDEN, "Access denied. Only patients can mark reminders as taken");
    }
    if reminderId.None? {
      return Fail(BAD_REQUEST, "Please provide reminder ID");
    }
    var id := reminderId.value;
    if id !in db.reminders {
      return Fail(NOT_FOUND, "Reminder not found");
    }
    var reminder := db.reminders[id];
    if reminder.userId != caller.id {
      return Fail(FORBIDDEN, "Not authorized to update this reminder");
    }
    reminder := reminder.(taken := true);
    reminder := reminder.(snoozed := false);
    db.reminders := db.reminders[id := reminder];
    if reminder.medicationId in db.medications {
      var medication := db.medications[reminder.medicationId];
      medication := medication.(adherenceCount := medication.adherenceCount + 1);
      db.medications := db.medications[reminder.medicationId := medication];
    }
    res := Ok(OK, reminder);
  }

  /** What PUT /api/reminders/snooze answers with: the saved reminder and a
      message naming the requested minutes (15 when none are sent). */
  datatype Snoozed = Snoozed(reminder: Reminder, message: string)

  function SnoozeMessage(snoozeMinutes: Option<int>): (m: string)
    ensures snoozeMinutes.None? ==> m == "Reminder snoozed for 15 minutes"
  {
    var minutes := if snoozeMinutes.Some? then snoozeMinutes.value else 15;
    "Reminder snoozed for " + IntToString(minutes) + " minutes"
  }

  /** The reply of PUT /api/reminders/snooze; same guard order as mark-taken. */
  function SnoozeReply(s: map<Id, Reminder>, caller: Caller, reminderId: Option<Id>, snoozeMinutes: Option<int>)
    : (r: Result<Snoozed>)
    ensures caller.role != Patient ==> r.Fail? && r.status == FORBIDDEN
    ensures caller.role == Patient && reminderId.None? ==> r.Fail? && r.status == BAD_REQUEST
    ensures caller.role == Patient && reminderId.Some? && reminderId.value !in s ==>
      r.Fail? && r.status == NOT_FOUND
    ensures (caller.role == Patient && reminderId.Some? && reminderId.value in s &&
             s[reminderId.value].userId != caller.id) ==> r.Fail? && r.status == FORBIDDEN
    ensures r.Ok? <==>
      caller.role == Patient && reminderId.Some? && reminderId.value in s && s[reminderId.value].userId == caller.id
    ensures r.Ok? ==> r.status == OK && r.value.reminder == SnoozeOnce(s[reminderId.value])
  {
    if caller.role != Patient then
      Fail(FORBIDDEN, "Access denied. Only patients can snooze reminders")
    else if reminderId.None? then
      Fail(BAD_REQUEST, "Please provide reminder ID")
    else if reminderId.value !in s then
      Fail(NOT_FOUND, "Reminder not found")
    else if s[reminderId.value].userId != caller.id then
      Fail(FORBIDDEN, "Not authorized to snooze this reminder")
    else
      Ok(OK, Snoozed(SnoozeOnce(s[reminderId.value]), SnoozeMessage(snoozeMinutes)))
  }

  /** The snooze minutes change only the message, never the saved reminder. */
  lemma SnoozeMinutesOnlyInMessage(s: map<Id, Reminder>, caller: Caller, reminderId: Option<Id>, a: Option<int>, b: Option<int>)
    ensures SnoozeReply(s, caller, reminderId, a).Ok? == SnoozeReply(s, caller, reminderId, b).Ok?
    ensures SnoozeReply(s, caller, reminderId, a).Ok? ==>
      SnoozeReply(s, caller, reminderId, a).value.reminder == SnoozeReply(s, caller, reminderId, b).value.reminder
  {
  }

  /** PUT /api/reminders/snooze. */
  method Snooze(db: Db, caller: Caller, reminderId: Option<Id>, snoozeMinutes: Option<int>)
    returns (res: Result<Snoozed>)
    requires db.Valid()
    modifies db`reminders
    ensures db.Valid()
    ensures res == SnoozeReply(old(db.reminders), caller, reminderId, snoozeMinutes)
    ensures db.reminders ==
      if res.Ok? then old(db.reminders)[reminderId.value := res.value.reminder] else old(db.reminders)
  {
    if caller.role != Patient {
      return Fail(FORBIDDEN, "Access denied. Only patients can snooze reminders");
    }
    if reminderId.None? {
      return Fail(BAD_REQUEST, "Please provide reminder ID");
    }
    var id := reminderId.value;
    if id !in db.reminders {
      return Fail(NOT_FOUND, "Reminder not found");
    }
    var reminder := db.reminders[id];
    if reminder.userId != caller.id {
      return Fail(FORBIDDEN, "Not authorized to snooze this reminder");
    }
    reminder := reminder.(snoozed := true);
    reminder := reminder.(snoozeCount := reminder.snoozeCount + 1);
    db.reminders := db.reminders[id := reminder];
    res := Ok(OK, Snoozed(reminder, SnoozeMessage(snoozeMinutes)));
  }

  /** A snooze never resets a taken reminder, and a later mark-taken clears
      the snooze flag while keeping the snooze count. */
  lemma SnoozeThenTake(r: Reminder)
    ensures SnoozeOnce(r).taken == r.taken
    ensures var t := Take(SnoozeOnce(r)); t.taken && !t.snoozed && t.snoozeCount == r.snoozeCount + 1
  {
  }

  // ------------------------------------------------------------- day queries

  /** A date lies in the day that starts at `midnight`. */
  predicate OnDay(date: int, midnight: int) {
    midnight <= date < midnight + DayMs
  }

  /** The ids below `n` of the user's reminders dated on the day of `now`. */
  ghost function TodaysIds(reminders: map<Id, Reminder>, n: nat, user: Id, now: int): set<Id> {
    set id | id < n && id in reminders && reminders[id].userId == user && OnDay(reminders[id].date, Midnight(now))
  }

  /** The ids below `n` of the user's reminders, only those on the day of
      `date` when one is given. */
  ghost function AskedIds(reminders: map<Id, Reminder>, n: nat, user: Id, date: Option<int>): set<Id> {
    set id | id < n && id in reminders && reminders[id].userId == user &&
      (date.Some? ==> OnDay(reminders[id].date, Midnight(date.value)))
  }

  /** GET /api/reminders/today: the requester's reminders dated today
      (ids below `n`, the store's id bound). */
  function TodayReminders(reminders: map<Id, Reminder>, n: nat, caller: Caller, now: int)
    : (r: Result<seq<Reminder>>)
    ensures r.Fail? <==> caller.role != Patient
    ensures r.Fail? ==> r.status == FORBIDDEN
    ensures r.Ok? ==> r.status == OK
    ensures r.Ok? ==> forall x :: x in r.value ==> x.userId == caller.id && OnDay(x.date, Midnight(now))
    ensures r.Ok? ==> forall id ::
      (id < n && id in reminders && reminders[id].userId == caller.id &&
       OnDay(reminders[id].date, Midnight(now))) ==> reminders[id] in r.value
    ensures r.Ok? ==> |r.value| == |TodaysIds(reminders, n, caller.id, now)|
  {
    if caller.role != Patient then
      Fail(FORBIDDEN, "Access denied. Only patients can view reminders")
    else
      var today := Midnight(now);
      var due := (x: Reminder) => x.userId == caller.id && OnDay(x.date, today);
      var ids := IdsWhere(reminders, n, due);
      SelectBelow(reminders, n, due);
      assert Matching(reminders, n, due) == TodaysIds(reminders, n, caller.id, now);
      var rs := Select(reminders, ids);
      Ok(OK, rs)
  }

  /** GET /api/reminders: all of the requester's reminders, or only those of
      the day containing `date` when a date is given. */
  function AllReminders(reminders: map<Id, Reminder>, n: nat, caller: Caller, date: Option<int>)
    : (r: Result<seq<Reminder>>)
    ensures r.Fail? <==> caller.role != Patient
    ensures r.Fail? ==> r.status == FORBIDDEN
    ensures r.Ok? ==> forall x :: x in r.value ==>
      x.userId == caller.id && (date.Some? ==> OnDay(x.date, Midnight(date.value)))
    ensures r.Ok? ==> forall id ::
      (id < n && id in reminders && reminders[id].userId == caller.id &&
       (date.Some? ==> OnDay(reminders[id].date, Midnight(date.value)))) ==> reminders[id] in r.value
    ensures r.Ok? ==> |r.value| == |AskedIds(reminders, n, caller.id, date)|
  {
    if caller.role != Patient then
      Fail(FORBIDDEN, "Access denied. Only patients can view reminders")
    else
      var asked := (x: Reminder) => x.userId == caller.id && (date.None? || OnDay(x.date, Midnight(date.value)));
      var ids := IdsWhere(reminders, n, asked);
      SelectBelow(reminders, n, asked);
      assert Matching(reminders, n, asked) == AskedIds(reminders, n, caller.id, date);
      var rs := Select(reminders, ids);
      Ok(OK, rs)
  }

  /** Asking for all reminders on today's date gives today's reminders. */
  lemma AllRemindersOfTodayAreToday(reminders: map<Id, Reminder>, n: nat, caller: Caller, now: int)
    ensures AllReminders(reminders, n, caller, Some(now)) == TodayReminders(reminders, n, caller, now)
  {
    var today := Midnight(now);
    IdsWhereAgree(reminders, n,
      (x: Reminder) => x.userId == caller.id && (Some(now).None? || OnDay(x.date, Midnight(Some(now).value))),
      (x: Reminder) => x.userId == caller.id && OnDay(x.date, today));
  }
}
