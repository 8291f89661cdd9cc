/**
 * Daily roll call (components/AttendanceTracker.tsx). The statuses being edited
 * live in a JavaScript object keyed by student id; it is modelled as an
 * association list in key-insertion order, which is the order `Object.entries`
 * reports for non-numeric keys. Saving hands the day's records to the store
 * and then, when automation is on, decides which tutors are notified of
 * repeated absences; each notification is returned as a webhook request
 * instead of being sent.
 */
module AttendanceTracker {
  import opened Types
  import opened Seqs

  /** One key of the status object. */
  datatype Entry = Entry(studentId: string, status: AttendanceStatus)

  /** The JSON body posted to the webhook. */
  datatype Payload = Payload(studentName: string, tutorEmail: string, totalAbsences: nat, career: string)

  /** What a save does, in order: store the records, then post each notification. */
  datatype Effect = SaveRecords(records: seq<AttendanceRecord>) | PostWebhook(url: string, body: Payload)

  /** No key occurs twice, as in an object. */
  ghost predicate DistinctKeys(m: seq<Entry>)
  {
    forall i, j :: 0 <= i < j < |m| ==> m[i].studentId != m[j].studentId
  }

  /** `m[id]` */
  function Lookup(m: seq<Entry>, id: string): (r: Option<AttendanceStatus>)
    ensures r.None? <==> forall i :: 0 <= i < |m| ==> m[i].studentId != id
    ensures r.Some? ==> exists i :: 0 <= i < |m| && m[i] == Entry(id, r.value)
  {
    if |m| == 0 then None
    else if m[0].studentId == id then Some(m[0].status)
    else Lookup(m[1..], id)
  }

  /**
   * `{ ...m, [id]: status }`: an existing key keeps its position and takes the
   * new status; a new key goes last.
   */
  function Put(m: seq<Entry>, id: string, status: AttendanceStatus): (r: seq<Entry>)
    ensures |r| == if Lookup(m, id).Some? then |m| else |m| + 1
    ensures forall i :: 0 <= i < |m| ==> r[i] == (if m[i].studentId == id then Entry(id, status) else m[i])
    ensures Lookup(m, id).None? ==> r[|m|] == Entry(id, status)
  {
    if Lookup(m, id).Some? then Map(m, (e: Entry) => if e.studentId == id then Entry(id, status) else e)
    else m + [Entry(id, status)]
  }

  /** With distinct keys, looking up the key of an entry finds that entry. */
  lemma LookupAt(m: seq<Entry>, i: nat)
    requires DistinctKeys(m) && i < |m|
    ensures Lookup(m, m[i].studentId) == Some(m[i].status)
  {
    var j :| 0 <= j < |m| && m[j] == Entry(m[i].studentId, Lookup(m, m[i].studentId).value);
    assert i == j;
  }

  /** Setting a key keeps the keys distinct. */
  lemma PutDistinct(m: seq<Entry>, id: string, status: AttendanceStatus)
    requires DistinctKeys(m)
    ensures DistinctKeys(Put(m, id, status))
  {
    var r := Put(m, id, status);
    forall i, j | 0 <= i < j < |r| ensures r[i].studentId != r[j].studentId {
      if j == |m| {
        assert r[i] == m[i];
      }
    }
  }

  /** After `toggleStatus`, the student's entry holds the chosen status. */
  lemma PutLookupSame(m: seq<Entry>, id: string, status: AttendanceStatus)
    requires DistinctKeys(m)
    ensures Lookup(Put(m, id, status), id) == Some(status)
  {
    var r := Put(m, id, status);
    PutDistinct(m, id, status);
    if Lookup(m, id).Some? {
      var i :| 0 <= i < |m| && m[i] == Entry(id, Lookup(m, id).value);
      LookupAt(r, i);
    } else {
      LookupAt(r, |m|);
    }
  }

  /** `toggleStatus` leaves every other student's entry as it was. */
  lemma PutLookupOther(m: seq<Entry>, id: string, status: AttendanceStatus, other: string)
    requires DistinctKeys(m) && other != id
    ensures Lookup(Put(m, id, status), other) == Lookup(m, other)
  {
    var r := Put(m, id, status);
    PutDistinct(m, id, status);
    if Lookup(m, other).Some? {
      var i :| 0 <= i < |m| && m[i] == Entry(other, Lookup(m, other).value);
      assert r[i] == m[i];
      LookupAt(r, i);
    } else {
      forall i | 0 <= i < |r| ensures r[i].studentId != other {
        if i < |m| { assert r[i] == m[i] || r[i].studentId == id; }
      }
    }
  }

  predicate OnDate(id: string, date: string, r: AttendanceRecord)
  {
    r.studentId == id && r.date == date
  }

  /** The status loaded for one student: that of the first record of theirs on the date, else present. */
  function InitialStatus(id: string, records: seq<AttendanceRecord>, date: string): AttendanceStatus
  {
    match Find(records, (r: AttendanceRecord) => OnDate(id, date, r))
    case Some(r) => r.status
    case None => Present
  }

  /** The loaded status is that of the student's first record on the date, and 'present' without one. */
  lemma InitialStatusSpec(id: string, records: seq<AttendanceRecord>, date: string)
    ensures (exists i :: 0 <= i < |records| && OnDate(id, date, records[i])) ==>
      exists i :: 0 <= i < |records| && OnDate(id, date, records[i]) &&
                  records[i].status == InitialStatus(id, records, date) &&
                  forall j :: 0 <= j < i ==> !OnDate(id, date, records[j])
    ensures (forall i :: 0 <= i < |records| ==> !OnDate(id, date, records[i])) ==>
      InitialStatus(id, records, date) == Present
  {
  }

  /** The object the reduce builds, one assignment per student in list order. */
  function InitialMap(students: seq<Student>, records: seq<AttendanceRecord>, date: string): seq<Entry>
  {
    if |students| == 0 then []
    else
      var last := students[|students| - 1];
      Put(InitialMap(students[..|students| - 1], records, date), last.id, InitialStatus(last.id, records, date))
  }

  /** The initial object has distinct keys, each of them a student's id. */
  lemma {:induction false} InitialMapKeys(students: seq<Student>, records: seq<AttendanceRecord>, date: string)
    ensures DistinctKeys(InitialMap(students, records, date))
    ensures forall e :: e in InitialMap(students, records, date) ==>
      exists i :: 0 <= i < |students| && students[i].id == e.studentId
  {
    if |students| > 0 {
      var n := |students| - 1;
      var init := students[..n];
      var m := InitialMap(init, records, date);
      var last := students[n];
      InitialMapKeys(init, records, date);
      PutDistinct(m, last.id, InitialStatus(last.id, records, date));
      var r := Put(m, last.id, InitialStatus(last.id, records, date));
      forall e | e in r ensures exists i :: 0 <= i < |students| && students[i].id == e.studentId {
        var k :| 0 <= k < |r| && r[k] == e;
        if k < |m| && m[k].studentId != last.id {
          assert m[k] in m;
          var i :| 0 <= i < |init| && init[i].id == m[k].studentId;
          assert students[i].id == e.studentId;
        } else {
          assert students[n].id == e.studentId;
        }
      }
    }
  }

  /** Every student's id maps to that student's loaded status. */
  lemma {:induction false} InitialMapValues(students: seq<Student>, records: seq<AttendanceRecord>, date: string)
    ensures forall i :: 0 <= i < |students| ==>
      Lookup(InitialMap(students, records, date), students[i].id) == Some(InitialStatus(students[i].id, records, date))
  {
    if |students| > 0 {
      var n := |students| - 1;
      forall i | 0 <= i < |students|
        ensures Lookup(InitialMap(students, records, date), students[i].id) == Some(InitialStatus(students[i].id, records, date))
      {
        InitialMapStep(students, records, date, i);
      }
    }
  }

  lemma {:induction false} InitialMapStep(students: seq<Student>, records: seq<AttendanceRecord>, date: string, i: nat)
    requires i < |students|
    ensures Lookup(InitialMap(students, records, date), students[i].id) == Some(InitialStatus(students[i].id, records, date))
    decreases |students|
  {
    var n := |students| - 1;
    var init := students[..n];
    var m := InitialMap(init, records, date);
    var last := students[n];
    var st := InitialStatus(last.id, records, date);
    assert InitialMap(students, records, date) == Put(m, last.id, st);
    InitialMapKeys(init, records, date);
    if students[i].id == last.id {
      PutLookupSame(m, last.id, st);
    } else {
      assert init[i] == students[i];
      InitialMapStep(init, records, date, i);
      PutLookupOther(m, last.id, st, students[i].id);
    }
  }

  /** The reduce at lines 17-21, written as the loop it runs. */
  method InitialStatuses(students: seq<Student>, records: seq<AttendanceRecord>, date: string)
    returns (m: seq<Entry>)
    ensures m == InitialMap(students, records, date)
    ensures DistinctKeys(m)
    ensures forall i :: 0 <= i < |students| ==>
      Lookup(m, students[i].id) == Some(InitialStatus(students[i].id, records, date))
  {
    m := [];
    var k := 0;
    while k < |students|
      invariant 0 <= k <= |students|
      invariant m == InitialMap(students[..k], records, date)
    {
      var s := students[k];
      m := Put(m, s.id, InitialStatus(s.id, records, date));
      assert students[..k + 1][..k] == students[..k];
      k := k + 1;
    }
    assert students[..k] == students;
    InitialMapKeys(students, records, date);
    InitialMapValues(students, records, date);
  }

  /** `toggleStatus`: the edited object after the user picks a status for one student. */
  function ToggleStatus(m: seq<Entry>, studentId: string, status: AttendanceStatus): seq<Entry>
  {
    Put(m, studentId, status)
  }

  function EntryRecord(date: string): Entry -> AttendanceRecord
  {
    (e: Entry) => AttendanceRecord(e.studentId, date, e.status)
  }

  /** The records being saved: one per entry, in entry order, all on the selected date. */
  function Batch(m: seq<Entry>, date: string): (batch: seq<AttendanceRecord>)
    ensures |batch| == |m|
    ensures forall i :: 0 <= i < |m| ==>
      batch[i].studentId == m[i].studentId && batch[i].status == m[i].status && batch[i].date == date
  {
    Map(m, EntryRecord(date))
  }

  /**
   * The absences counted for a student when a new absence is saved on `date`:
   * their earlier absences on other dates, plus the new one.
   */
  function AbsenceCount(studentId: string, records: seq<AttendanceRecord>, date: string): (n: nat)
    ensures n >= 1
  {
    |Filter(records, (r: AttendanceRecord) => r.studentId == studentId && r.status == Absent && r.date != date)| + 1
  }

  /** The notification one saved record gives rise to, if any. */
  function NotificationFor(record: AttendanceRecord, students: seq<Student>, records: seq<AttendanceRecord>,
                           automation: AutomationSettings, date: string): seq<Payload>
  {
    if record.status != Absent then []
    else
      var total := AbsenceCount(record.studentId, records, date);
      if total < automation.threshold then []
      else match Find(students, (s: Student) => s.id == record.studentId)
        case None => []
        case Some(s) => [Payload(s.name, s.tutorEmail, total, s.career)]
  }

  /**
   * A record gives a notification iff it is an absence, the student's count
   * reaches the threshold and the student is found; the notification then
   * carries that student's name, tutor email and career and the count.
   */
  lemma NotificationForSpec(record: AttendanceRecord, students: seq<Student>, records: seq<AttendanceRecord>,
                            automation: AutomationSettings, date: string)
    ensures var r := NotificationFor(record, students, records, automation, date);
            |r| <= 1 &&
            (|r| == 1 <==> record.status == Absent &&
                           AbsenceCount(record.studentId, records, date) >= automation.threshold &&
                           exists s :: s in students && s.id == record.studentId)
    ensures var r := NotificationFor(record, students, records, automation, date);
            |r| == 1 ==>
              exists i :: 0 <= i < |students| && students[i].id == record.studentId &&
                          (forall j :: 0 <= j < i ==> students[j].id != record.studentId) &&
                          r[0] == Payload(students[i].name, students[i].tutorEmail,
                                          AbsenceCount(record.studentId, records, date), students[i].career)
  {
    var f := Find(students, (s: Student) => s.id == record.studentId);
    if f.None? {
      forall s | s in students ensures s.id != record.studentId {
        var i :| 0 <= i < |students| && students[i] == s;
      }
    }
  }

  /** The notifications for a batch, in batch order. */
  function NotificationsFor(batch: seq<AttendanceRecord>, students: seq<Student>, records: seq<AttendanceRecord>,
                            automation: AutomationSettings, date: string): seq<Payload>
  {
    if |batch| == 0 then []
    else NotificationsFor(batch[..|batch| - 1], students, records, automation, date) +
         NotificationFor(batch[|batch| - 1], students, records, automation, date)
  }

  /** Nothing is posted unless automation is enabled and a webhook URL is set. */
  function Notifications(batch: seq<AttendanceRecord>, students: seq<Student>, records: seq<AttendanceRecord>,
                         automation: AutomationSettings, date: string): seq<Payload>
  {
    if automation.enabled && automation.webhookUrl != "" then NotificationsFor(batch, students, records, automation, date)
    else []
  }

  lemma NotificationsForStep(batch: seq<AttendanceRecord>, k: nat, students: seq<Student>, records: seq<AttendanceRecord>,
                             automation: AutomationSettings, date: string)
    requires k < |batch|
    ensures NotificationsFor(batch[..k + 1], students, records, automation, date) ==
            NotificationsFor(batch[..k], students, records, automation, date) +
            NotificationFor(batch[k], students, records, automation, date)
  {
    assert batch[..k + 1][..k] == batch[..k];
  }

  function Post(url: string): Payload -> Effect
  {
    (p: Payload) => PostWebhook(url, p)
  }

  /**
   * `handleSave`: the batch is handed to the store first, then one webhook
   * request per notification. Each request's failure is caught and ignored,
   * so the save completes whatever the deliveries do; the model returns the
   * requests rather than sending them.
   */
  method Save(m: seq<Entry>, date: string, students: seq<Student>, records: seq<AttendanceRecord>,
              automation: AutomationSettings)
    returns (effects: seq<Effect>)
    ensures effects == [SaveRecords(Batch(m, date))] +
      Map(Notifications(Batch(m, date), students, records, automation, date), Post(automation.webhookUrl))
  {
    var batch := Batch(m, date);
    var url := automation.webhookUrl;
    effects := [SaveRecords(batch)];
    if automation.enabled && url != "" {
      var k := 0;
      while k < |batch|
        invariant 0 <= k <= |batch|
        invariant effects == [SaveRecords(batch)] + Map(NotificationsFor(batch[..k], students, records, automation, date), Post(url))
      {
        var record := batch[k];
        ghost var before := effects;
        if record.status == Absent {
          var total := AbsenceCount(record.studentId, records, date);
          if total >= automation.threshold {
            var student := Find(students, (s: Student) => s.id == record.studentId);
            if student.Some? {
              effects := effects + [PostWebhook(url, Payload(student.value.name, student.value.tutorEmail, total, student.value.career))];
            }
          }
        }
        ghost var sent := NotificationFor(record, students, records, automation, date);
        assert effects == before + Map(sent, Post(url));
        ghost var done := NotificationsFor(batch[..k], students, records, automation, date);
        NotificationsForStep(batch, k, students, records, automation, date);
        MapConcat(done, sent, Post(url));
        k := k + 1;
      }
      assert batch[..k] == batch;
    }
  }

  /** Every notification comes from an absence in the batch whose count reached the threshold. */
  lemma {:induction false} NotificationsSound(batch: seq<AttendanceRecord>, students: seq<Student>,
                                              records: seq<AttendanceRecord>, automation: AutomationSettings,
                                              date: string, p: Payload)
    requires p in Notifications(batch, students, records, automation, date)
    ensures automation.enabled && automation.webhookUrl != ""
    ensures exists r :: r in batch && r.status == Absent &&
                        p.totalAbsences == AbsenceCount(r.studentId, records, date) >= automation.threshold
  {
    NotificationsForSound(batch, students, records, automation, date, p);
  }

  lemma {:induction false} NotificationsForSound(batch: seq<AttendanceRecord>, students: seq<Student>,
                                                 records: seq<AttendanceRecord>, automation: AutomationSettings,
                                                 date: string, p: Payload)
    requires p in NotificationsFor(batch, students, records, automation, date)
    ensures exists r :: r in batch && r.status == Absent &&
                        p.totalAbsences == AbsenceCount(r.studentId, records, date) >= automation.threshold
  {
    var n := |batch| - 1;
    var last := NotificationFor(batch[n], students, records, automation, date);
    if p in last {
      assert batch[n] in batch;
    } else {
      NotificationsForSound(batch[..n], students, records, automation, date, p);
      var r :| r in batch[..n] && r.status == Absent &&
        p.totalAbsences == AbsenceCount(r.studentId, records, date) >= automation.threshold;
      assert r in batch;
    }
  }

  /**
   * Records already stored for the date being saved are never counted: the
   * count is the same whatever the store holds for that date.
   */
  lemma {:induction false} SameDateNotCounted(studentId: string, records: seq<AttendanceRecord>,
                                              sameDay: seq<AttendanceRecord>, date: string)
    requires forall i :: 0 <= i < |sameDay| ==> sameDay[i].date == date
    ensures AbsenceCount(studentId, records + sameDay, date) == AbsenceCount(studentId, records, date)
  {
    var p := (r: AttendanceRecord) => r.studentId == studentId && r.status == Absent && r.date != date;
    FilterConcat(records, sameDay, p);
    FilterNone(sameDay, p);
  }

  /**
   * The store appends without de-duplication: an absence on an earlier date
   * that was saved twice counts twice towards a later alert.
   */
  lemma {:induction false} DuplicateSaveCountsTwice(records: seq<AttendanceRecord>, earlier: AttendanceRecord, date: string)
    requires earlier.status == Absent && earlier.date != date
    ensures AbsenceCount(earlier.studentId, records + [earlier] + [earlier], date) ==
            AbsenceCount(earlier.studentId, records, date) + 2
  {
    var p := (r: AttendanceRecord) => r.studentId == earlier.studentId && r.status == Absent && r.date != date;
    FilterConcat(records + [earlier], [earlier], p);
    FilterConcat(records, [earlier], p);
    assert Filter([earlier], p) == [earlier];
  }

  /**
   * With threshold 3: two earlier absences on other dates and a new absence
   * give one notification reporting 3; with only one earlier absence nothing
   * is sent.
   */
  lemma ThresholdExample(s: Student)
    ensures var auto := AutomationSettings("https://hook", 3, true);
            var stored := [AttendanceRecord(s.id, "2024-05-20", Absent), AttendanceRecord(s.id, "2024-05-21", Absent)];
            var batch := [AttendanceRecord(s.id, "2024-05-22", Absent)];
            Notifications(batch, [s], stored, auto, "2024-05-22") ==
              [Payload(s.name, s.tutorEmail, 3, s.career)] &&
            Notifications(batch, [s], stored[..1], auto, "2024-05-22") == []
  {
    var date := "2024-05-22";
    var stored := [AttendanceRecord(s.id, "2024-05-20", Absent), AttendanceRecord(s.id, "2024-05-21", Absent)];
    var batch := [AttendanceRecord(s.id, date, Absent)];
    var p := (r: AttendanceRecord) => r.studentId == s.id && r.status == Absent && r.date != date;
    assert stored[0].date != date && stored[1].date != date;
    FilterAll(stored, p);
    FilterAll(stored[..1], p);
    assert AbsenceCount(s.id, stored, date) == 3;
    assert AbsenceCount(s.id, stored[..1], date) == 2;
    assert Find([s], (x: Student) => x.id == s.id) == Some(s);
    assert batch[..0] == [];
    var auto := AutomationSettings("https://hook", 3, true);
    assert NotificationFor(batch[0], [s], stored, auto, date) == [Payload(s.name, s.tutorEmail, 3, s.career)];
    assert NotificationFor(batch[0], [s], stored[..1], auto, date) == [];
    assert NotificationsFor(batch, [s], stored, auto, date) == NotificationFor(batch[0], [s], stored, auto, date);
    assert NotificationsFor(batch, [s], stored[..1], auto, date) == [];
  }
}
