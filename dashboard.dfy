/**
 * The derived data of the role dashboard: the user the page is about, the
 * doctor roster, the patient's and the doctor's appointment lists, the
 * "latest vitals" card, the admin's per-role tables and the patient's
 * appointment rows with their Cancel offer. All of it is computed from the
 * user list and the joined appointment list by `filter`, `sort` and `find`.
 */
module Dashboard {
  import opened Wrappers
  import opened Text
  import opened Sequences
  import opened Accounts

  // ===================== current user =====================

  /** `users.find((u) => u.id === user?.id) || user`: the fresh copy of the
      logged-in user from the user list, falling back to the passed-in user. */
  function CurrentUser(users: seq<User>, user: Option<User>): (r: Option<User>)
    ensures user.None? ==> r.None?
    ensures user.Some? ==> r.Some? && r.value.id == user.value.id
    ensures user.Some? && (forall u :: u in users ==> u.id != user.value.id) ==> r == user
    ensures user.Some? && (exists u :: u in users && u.id == user.value.id) ==>
              exists k :: 0 <= k < |users| && users[k] == r.value &&
                (forall j :: 0 <= j < k ==> users[j].id != user.value.id)
  {
    if user.None? then None
    else match FindFirst(users, (u: User) => u.id == user.value.id)
      case Some(k) => Some(users[k])
      case None => user
  }

  /** `!currentUser?.id` is false: there is a current user and its id is truthy. */
  predicate HasId(current: Option<User>)
  {
    current.Some? && IdTruthy(current.value.id)
  }

  // ===================== roster =====================

  predicate IsDoctor(u: User)
  {
    u.role == DoctorRole
  }

  /** `users.filter((u) => u.role === "doctor")`: the booking form's doctor choices. */
  function Doctors(users: seq<User>): (r: seq<User>)
    ensures Selects(r, users, IsDoctor)
  {
    Filter(users, IsDoctor)
  }

  // ===================== ordering by datetime =====================

  datatype Direction = Ascending | Descending

  /** The comparators handed to `sort`: `a.datetime > b.datetime ? 1 : -1`
      for ascending and `a.datetime > b.datetime ? -1 : 1` for descending.
      Neither ever answers 0, so equal datetimes are not reported as ties. */
  function Compare(d: Direction, a: Appointment, b: Appointment): (c: int)
    ensures c == 1 || c == -1
  {
    var later := Less(b.datetime, a.datetime);
    match d
    case Ascending => if later then 1 else -1
    case Descending => if later then -1 else 1
  }

  /** `a` may stand before `b` in a list ordered by datetime in direction `d`. */
  predicate InOrder(d: Direction, a: Appointment, b: Appointment)
  {
    match d
    case Ascending => AtMost(a.datetime, b.datetime)
    case Descending => AtMost(b.datetime, a.datetime)
  }

  /** Non-strictly ordered by datetime; the order among equal datetimes is free. */
  predicate SortedBy(d: Direction, s: seq<Appointment>)
  {
    forall i, j :: 0 <= i < j < |s| ==> InOrder(d, s[i], s[j])
  }

  /** What the comparator's answer means for the order. */
  lemma CompareConsistent(d: Direction, a: Appointment, b: Appointment)
    ensures Compare(d, a, b) < 0 ==> InOrder(d, a, b)
    ensures Compare(d, a, b) > 0 ==> InOrder(d, b, a)
  {
    if Less(b.datetime, a.datetime) {
      LessAsymmetric(b.datetime, a.datetime);
    }
  }

  lemma InOrderTransitive(d: Direction, a: Appointment, b: Appointment, c: Appointment)
    requires InOrder(d, a, b) && InOrder(d, b, c)
    ensures InOrder(d, a, c)
  {
    match d
    case Ascending => AtMostTransitive(a.datetime, b.datetime, c.datetime);
    case Descending => AtMostTransitive(c.datetime, b.datetime, a.datetime);
  }

  /** Putting in front of an ordered list an element that may precede all of it keeps it ordered. */
  lemma ConsSorted(d: Direction, h: Appointment, t: seq<Appointment>)
    requires SortedBy(d, t)
    requires forall j :: 0 <= j < |t| ==> InOrder(d, h, t[j])
    ensures SortedBy(d, [h] + t)
  {
    var s := [h] + t;
    forall i, j | 0 <= i < j < |s|
      ensures InOrder(d, s[i], s[j])
    {
      if i > 0 {
        assert s[i] == t[i - 1] && s[j] == t[j - 1];
      }
    }
  }

  /** Inserts `x` into an ordered list, stepping past every element the comparator puts first. */
  function Insert(d: Direction, x: Appointment, s: seq<Appointment>): (r: seq<Appointment>)
    requires SortedBy(d, s)
    ensures SortedBy(d, r)
    ensures multiset(r) == multiset(s) + multiset{x}
  {
    if s == [] then [x]
    else if Compare(d, x, s[0]) < 0 then
      InsertFront(d, x, s);
      [x] + s
    else
      var rest := Insert(d, x, s[1..]);
      InsertBehind(d, x, s, rest);
      [s[0]] + rest
  }

  lemma InsertFront(d: Direction, x: Appointment, s: seq<Appointment>)
    requires SortedBy(d, s) && s != [] && Compare(d, x, s[0]) < 0
    ensures SortedBy(d, [x] + s)
    ensures multiset([x] + s) == multiset(s) + multiset{x}
  {
    CompareConsistent(d, x, s[0]);
    forall j | 0 <= j < |s|
      ensures InOrder(d, x, s[j])
    {
      if j > 0 {
        InOrderTransitive(d, x, s[0], s[j]);
      }
    }
    ConsSorted(d, x, s);
  }

  lemma InsertBehind(d: Direction, x: Appointment, s: seq<Appointment>, rest: seq<Appointment>)
    requires SortedBy(d, s) && s != [] && Compare(d, x, s[0]) >= 0
    requires SortedBy(d, rest) && multiset(rest) == multiset(s[1..]) + multiset{x}
    ensures SortedBy(d, [s[0]] + rest)
    ensures multiset([s[0]] + rest) == multiset(s) + multiset{x}
  {
    CompareConsistent(d, x, s[0]);
    assert s == [s[0]] + s[1..];
    forall j | 0 <= j < |rest|
      ensures InOrder(d, s[0], rest[j])
    {
      assert rest[j] in multiset(rest);
      if rest[j] != x {
        assert rest[j] in multiset(s[1..]);
        var k :| 0 <= k < |s[1..]| && s[1..][k] == rest[j];
        assert s[k + 1] == rest[j];
      }
    }
    ConsSorted(d, s[0], rest);
  }

  /** `sort` with the comparator of direction `d`, as insertion sort. */
  function Sort(d: Direction, s: seq<Appointment>): (r: seq<Appointment>)
    ensures SortedBy(d, r)
    ensures multiset(r) == multiset(s)
  {
    if s == [] then []
    else
      assert s == [s[0]] + s[1..];
      Insert(d, s[0], Sort(d, s[1..]))
  }

  // ===================== appointment lists =====================

  predicate PendingFor(id: Id, a: Appointment)
  {
    a.docId == id && a.status == Pending
  }

  predicate DoctorCompletedFor(id: Id, a: Appointment)
  {
    a.docId == id && a.status == Completed
  }

  predicate PatientCompletedFor(id: Id, a: Appointment)
  {
    a.patId == id && a.status == Completed
  }

  /** `myPatientAppts`: every appointment of the current patient, in list order. */
  function MyPatientAppts(appts: seq<Appointment>, current: Option<User>): (r: seq<Appointment>)
    ensures !HasId(current) ==> r == []
    ensures HasId(current) ==> Selects(r, appts, (a: Appointment) => a.patId == current.value.id)
  {
    if !HasId(current) then []
    else Filter(appts, (a: Appointment) => a.patId == current.value.id)
  }

  /** `myDoctorPending`: the current doctor's Pending appointments, soonest first. */
  function MyDoctorPending(appts: seq<Appointment>, current: Option<User>): (r: seq<Appointment>)
    ensures !HasId(current) ==> r == []
    ensures HasId(current) ==>
              SortedBy(Ascending, r) && Picks(r, appts, (a: Appointment) => PendingFor(current.value.id, a))
  {
    if !HasId(current) then []
    else Sort(Ascending, Filter(appts, (a: Appointment) => PendingFor(current.value.id, a)))
  }

  /** `myDoctorCompleted`: the current doctor's Completed appointments, most recent first. */
  function MyDoctorCompleted(appts: seq<Appointment>, current: Option<User>): (r: seq<Appointment>)
    ensures !HasId(current) ==> r == []
    ensures HasId(current) ==>
              SortedBy(Descending, r) && Picks(r, appts, (a: Appointment) => DoctorCompletedFor(current.value.id, a))
  {
    if !HasId(current) then []
    else Sort(Descending, Filter(appts, (a: Appointment) => DoctorCompletedFor(current.value.id, a)))
  }

  /** `myPatientCompleted`: the current patient's Completed appointments, most recent first. */
  function MyPatientCompleted(appts: seq<Appointment>, current: Option<User>): (r: seq<Appointment>)
    ensures !HasId(current) ==> r == []
    ensures HasId(current) ==>
              SortedBy(Descending, r) && Picks(r, appts, (a: Appointment) => PatientCompletedFor(current.value.id, a))
  {
    if !HasId(current) then []
    else Sort(Descending, Filter(appts, (a: Appointment) => PatientCompletedFor(current.value.id, a)))
  }

  // ===================== latest vitals card =====================

  /** The "My Latest Appointment Vitals" card: the head of `myPatientCompleted`,
      shown only when the list is non-empty and that head carries a record. */
  function LatestVitals(appts: seq<Appointment>, current: Option<User>): (r: Option<Appointment>)
    ensures r.Some? ==> HasId(current) && r.value.record.Some?
    ensures r.Some? ==> PatientCompletedFor(current.value.id, r.value)
  {
    var done := MyPatientCompleted(appts, current);
    if |done| > 0 && done[0].record.Some? then Some(done[0]) else None
  }

  /** The head of a list ordered most recent first is at least as late as every element. */
  lemma HeadIsLatest(s: seq<Appointment>)
    requires SortedBy(Descending, s) && |s| > 0
    ensures forall b :: b in s ==> AtMost(b.datetime, s[0].datetime)
  {
    forall b | b in s
      ensures AtMost(b.datetime, s[0].datetime)
    {
      var j :| 0 <= j < |s| && s[j] == b;
      if j == 0 {
        LessIrreflexive(b.datetime);
      }
    }
  }

  /** The card, when shown, is a Completed appointment of the current patient that has a
      record and is at least as late as every other Completed appointment of theirs.
      Which of several appointments with the same datetime heads the list is not fixed. */
  lemma LatestVitalsIsLatest(appts: seq<Appointment>, current: Option<User>)
    ensures LatestVitals(appts, current).Some? ==>
              var shown := LatestVitals(appts, current).value;
              HasId(current) && shown in appts && shown.record.Some? &&
              PatientCompletedFor(current.value.id, shown) &&
              forall b :: b in appts && PatientCompletedFor(current.value.id, b) ==>
                AtMost(b.datetime, shown.datetime)
  {
    if LatestVitals(appts, current).Some? {
      var done := MyPatientCompleted(appts, current);
      var id := current.value.id;
      PicksMembers(done, appts, (a: Appointment) => PatientCompletedFor(id, a));
      HeadIsLatest(done);
      assert done[0] in done;
    }
  }

  /** When the patient has Completed appointments and the card is not shown, one of the
      latest of them has no record; so if all of them have records the card is shown. */
  lemma LatestVitalsHiddenOnlyWithoutRecord(appts: seq<Appointment>, current: Option<User>, some: Appointment)
    requires HasId(current) && some in appts && PatientCompletedFor(current.value.id, some)
    ensures LatestVitals(appts, current).None? ==>
              exists b :: b in appts && PatientCompletedFor(current.value.id, b) && b.record.None? &&
                forall c :: c in appts && PatientCompletedFor(current.value.id, c) ==>
                  AtMost(c.datetime, b.datetime)
  {
    var done := MyPatientCompleted(appts, current);
    var id := current.value.id;
    PicksMembers(done, appts, (a: Appointment) => PatientCompletedFor(id, a));
    assert some in done;
    HeadIsLatest(done);
    assert done[0] in done;
  }

  // ===================== admin tables =====================

  /** One of the admin's role tables: its rows and whether the "No <role>s yet." row shows. */
  datatype RoleTable = RoleTable(role: string, rows: seq<User>, showsEmptyNotice: bool)

  function Table(users: seq<User>, role: string): (t: RoleTable)
    ensures t.role == role
    ensures Selects(t.rows, users, (u: User) => u.role == role)
    ensures t.showsEmptyNotice <==> forall u :: u in users ==> u.role != role
  {
    var rows := Filter(users, (u: User) => u.role == role);
    PicksNothing(rows, users, (u: User) => u.role == role);
    RoleTable(role, rows, |rows| == 0)
  }

  /** The admin view: a doctors table, then a patients table. */
  function AdminTables(users: seq<User>): (r: seq<RoleTable>)
    ensures |r| == 2 && r[0].role == DoctorRole && r[1].role == PatientRole
    ensures forall k :: 0 <= k < |r| ==> Selects(r[k].rows, users, (u: User) => u.role == r[k].role)
    ensures forall k :: 0 <= k < |r| ==>
              (r[k].showsEmptyNotice <==> forall u :: u in users ==> u.role != r[k].role)
  {
    [Table(users, DoctorRole), Table(users, PatientRole)]
  }

  // ===================== patient appointment rows =====================

  /** A row of "My Appointments": the appointment, its status badge and whether Cancel is offered. */
  datatype PatientRow = PatientRow(appt: Appointment, badge: Option<string>, offersCancel: bool)

  /** The three statuses that have a badge; any other status shows none. */
  function StatusBadge(status: string): (b: Option<string>)
    ensures b.Some? ==> b.value == status
    ensures b.None? <==> status != Pending && status != Completed && status != Cancelled
  {
    if status == Pending || status == Completed || status == Cancelled then Some(status) else None
  }

  function PatientRows(appts: seq<Appointment>, current: Option<User>): (r: seq<PatientRow>)
    ensures |r| == |MyPatientAppts(appts, current)|
    ensures forall i :: 0 <= i < |r| ==> r[i].appt == MyPatientAppts(appts, current)[i]
  {
    var mine := MyPatientAppts(appts, current);
    seq(|mine|, i requires 0 <= i < |mine| =>
      PatientRow(mine[i], StatusBadge(mine[i].status), mine[i].status == Pending))
  }

  /** Cancel is offered on an appointment exactly when it is one of the current
      patient's appointments and its status is Pending. */
  lemma CancelOfferedExactlyForOwnPending(appts: seq<Appointment>, current: Option<User>, a: Appointment)
    requires HasId(current)
    ensures var rows := PatientRows(appts, current);
            (exists i :: 0 <= i < |rows| && rows[i].appt == a && rows[i].offersCancel) <==>
            (a in appts && a.patId == current.value.id && a.status == Pending)
  {
    var mine := MyPatientAppts(appts, current);
    var rows := PatientRows(appts, current);
    PicksMembers(mine, appts, (b: Appointment) => b.patId == current.value.id);
    if a in appts && a.patId == current.value.id && a.status == Pending {
      var i :| 0 <= i < |mine| && mine[i] == a;
      assert rows[i].appt == a && rows[i].offersCancel;
    }
  }
}
