/**
 The five tables of the server and the effect of each HTTP handler on them.

 A table with a primary key and no order-dependent query is a map; teachers and events, which are read in
 insertion order, are sequences.  An insert whose key is taken fails and leaves the tables alone.
 */
module Database {
  import opened Basics
  import opened CheatingEngine

  datatype Http = Success | Created | BadRequest | NotFound | Conflict | InternalError

  /** The one settings field the server itself reads, in minutes; 0 when the text does not name it. */
  datatype Settings = Settings(examDuration: Int64)
  const NO_SETTINGS := Settings(0)

  datatype RunStatus = Pending | Running | Finished
  datatype Teacher = Teacher(id: Id, name: string, passwordHash: string)
  datatype Exam = Exam(createdBy: Id, name: string, settings: Settings)
  datatype ExamRun = ExamRun(examId: Id, status: RunStatus, startedAt: Option<Time>, endedAt: Option<Time>)
  datatype Student = Student(runId: Id, name: string, stats: Option<Monitor>)
  datatype EventRow = EventRow(id: Id, studentId: Id, runId: Id, event: string, createdAt: Time)

  datatype Db = Db(
    teachers: seq<Teacher>, exams: map<Id, Exam>, runs: map<Id, ExamRun>,
    students: map<Id, Student>, events: seq<EventRow>)

  const EMPTY_DB := Db([], map[], map[], map[], [])

  // ---------------------------------------------------------------- queries

  predicate IsTeacher(db: Db, id: Id) {
    exists t :: t in db.teachers && t.id == id
  }

  /** The first teacher of that name, in insertion order. */
  function TeacherNamed(ts: seq<Teacher>, name: string): (t: Option<Teacher>)
    ensures t.None? ==> forall i :: 0 <= i < |ts| ==> ts[i].name != name
    ensures t.Some? ==> exists i :: 0 <= i < |ts| && ts[i] == t.value && ts[i].name == name &&
                                    forall j :: 0 <= j < i ==> ts[j].name != name
  {
    if ts == [] then None else if ts[0].name == name then Some(ts[0]) else TeacherNamed(ts[1..], name)
  }

  predicate RunIs(db: Db, runId: Id, status: RunStatus) {
    runId in db.runs && db.runs[runId].status == status
  }

  predicate Matches(db: Db, id: Id, runId: Id, name: string) {
    id in db.students && db.students[id].runId == runId && db.students[id].name == name
  }

  ghost function FindStudent(db: Db, runId: Id, name: string): (r: Option<Id>)
    ensures r.Some? ==> Matches(db, r.value, runId, name)
    ensures r.None? ==> forall id :: !Matches(db, id, runId, name)
  {
    if exists id :: Matches(db, id, runId, name)
    then var id :| Matches(db, id, runId, name); Some(id)
    else None
  }

  /** The UNIQUE(run_id, name) constraint of the students table. */
  ghost predicate UniqueNames(db: Db) {
    forall s, t :: s in db.students && t in db.students && s != t
      ==> db.students[s].runId != db.students[t].runId || db.students[s].name != db.students[t].name
  }

  /** The students of `db'` are students of `db`, up to their statistics. */
  ghost predicate StudentsKept(db: Db, db': Db) {
    forall s :: s in db'.students ==>
      s in db.students && db'.students[s].runId == db.students[s].runId && db'.students[s].name == db.students[s].name
  }

  predicate FinishedRow(row: EventRow, studentId: Id) {
    row.studentId == studentId && row.event == STUDENT_FINISHED
  }

  predicate HasFinished(events: seq<EventRow>, studentId: Id) {
    exists i :: 0 <= i < |events| && FinishedRow(events[i], studentId)
  }

  predicate EventIdTaken(events: seq<EventRow>, id: Id) {
    exists i :: 0 <= i < |events| && events[i].id == id
  }

  function RunsOf(db: Db, examId: Id): set<Id> {
    set r | r in db.runs && db.runs[r].examId == examId
  }

  // ---------------------------------------------------------------- statements

  function WithoutRuns(events: seq<EventRow>, gone: set<Id>): (kept: seq<EventRow>)
    ensures forall i :: 0 <= i < |kept| ==> kept[i] in events && kept[i].runId !in gone
    ensures forall row :: row in events && row.runId !in gone ==> row in kept
  {
    if events == [] then []
    else
      var n := |events| - 1;
      WithoutRuns(events[..n], gone) + if events[n].runId in gone then [] else [events[n]]
  }

  /** The positions of the events of other runs, in increasing order. */
  function KeptAt(events: seq<EventRow>, gone: set<Id>): (ix: seq<nat>)
    ensures forall j :: 0 <= j < |ix| ==> ix[j] < |events|
    ensures forall i, j :: 0 <= i < j < |ix| ==> ix[i] < ix[j]
    ensures forall k :: k in ix <==> 0 <= k < |events| && events[k].runId !in gone
  {
    if events == [] then []
    else
      var n := |events| - 1;
      KeptAt(events[..n], gone) + if events[n].runId in gone then [] else [n]
  }

  predicate PickedAt(events: seq<EventRow>, kept: seq<EventRow>, ix: seq<nat>) {
    |kept| == |ix| && forall j :: 0 <= j < |ix| ==> ix[j] < |events| && kept[j] == events[ix[j]]
  }

  /** The kept events are those of all other runs, each as often as it was there, in their old order. */
  lemma {:induction false} WithoutRunsKeepsOrder(events: seq<EventRow>, gone: set<Id>)
    ensures PickedAt(events, WithoutRuns(events, gone), KeptAt(events, gone))
  {
    if events == [] {
    } else {
      var n := |events| - 1;
      WithoutRunsKeepsOrder(events[..n], gone);
      PickedLonger(events, WithoutRuns(events[..n], gone), KeptAt(events[..n], gone));
    }
  }

  lemma PickedLonger(events: seq<EventRow>, kept: seq<EventRow>, ix: seq<nat>)
    requires events != [] && PickedAt(events[..|events| - 1], kept, ix)
    ensures PickedAt(events, kept, ix)
    ensures PickedAt(events, kept + [events[|events| - 1]], ix + [|events| - 1])
    ensures kept + [] == kept && ix + [] == ix
  {
  }

  function DeleteEvents(db: Db, gone: set<Id>): Db {
    db.(events := WithoutRuns(db.events, gone))
  }

  function DeleteStudents(db: Db, gone: set<Id>): Db {
    db.(students := map s | s in db.students && db.students[s].runId !in gone :: db.students[s])
  }

  function DeleteRuns(db: Db, gone: set<Id>): Db {
    db.(runs := map r | r in db.runs && r !in gone :: db.runs[r])
  }

  // ---------------------------------------------------------------- handlers

  function RegisterTeacher(db: Db, id: Id, name: string, password: string, hash: string): (Db, Http) {
    if name == "" || password == "" then (db, BadRequest)
    else if IsTeacher(db, id) then (db, InternalError)
    else (db.(teachers := db.teachers + [Teacher(id, name, hash)]), Created)
  }

  function CreateExam(db: Db, id: Id, createdBy: Id, name: string, settings: Settings): (Db, Http) {
    if createdBy == "" || name == "" then (db, BadRequest)
    else if !IsTeacher(db, createdBy) then (db, BadRequest)
    else if id in db.exams then (db, InternalError)
    else (db.(exams := db.exams[id := Exam(createdBy, name, settings)]), Created)
  }

  /** An absent name or settings text leaves that column alone. */
  function UpdateExam(db: Db, id: Id, name: string, settings: Option<Settings>): (Db, Http) {
    if id == "" then (db, BadRequest)
    else if id !in db.exams then (db, NotFound)
    else if exists r :: r in db.runs && db.runs[r].examId == id && db.runs[r].status == Running then (db, Conflict)
    else
      var exam := db.exams[id];
      var named := if name != "" then exam.(name := name) else exam;
      var changed := if settings.Some? then named.(settings := settings.value) else named;
      (db.(exams := db.exams[id := changed]), Success)
  }

  function DeleteExam(db: Db, id: Id): (Db, Http) {
    if id == "" then (db, BadRequest)
    else if id !in db.exams then (db, NotFound)
    else
      var gone := RunsOf(db, id);
      var rest := DeleteRuns(DeleteStudents(DeleteEvents(db, gone), gone), gone);
      (rest.(exams := rest.exams - {id}), Success)
  }

  /** Deleting an exam removes its runs and what belongs to them, and nothing else. */
  lemma DeleteExamIsExact(db: Db, id: Id)
    requires id != "" && id in db.exams
    ensures
      var db' := DeleteExam(db, id).0;
      && db'.exams == db.exams - {id} && db'.teachers == db.teachers
      && (forall r :: r in db'.runs <==> r in db.runs && db.runs[r].examId != id)
      && (forall r :: r in db'.runs ==> db'.runs[r] == db.runs[r])
      && (forall s :: s in db'.students <==> s in db.students && db.students[s].runId !in RunsOf(db, id))
      && (forall s :: s in db'.students ==> db'.students[s] == db.students[s])
      && (forall row :: row in db'.events <==> row in db.events && row.runId !in RunsOf(db, id))
  {
  }

  function CreateRun(db: Db, id: Id, examId: Id): (Db, Http) {
    if examId == "" then (db, BadRequest)
    else if examId !in db.exams then (db, BadRequest)
    else if id in db.runs then (db, InternalError)
    else (db.(runs := db.runs[id := ExamRun(examId, Pending, None, None)]), Created)
  }

  function DeleteRun(db: Db, id: Id): (Db, Http) {
    if id == "" then (db, BadRequest)
    else if id !in db.runs then (db, NotFound)
    else (DeleteRuns(DeleteStudents(DeleteEvents(db, {id}), {id}), {id}), Success)
  }

  ghost function RegisterStudent(db: Db, id: Id, runId: Id, name: string): (Db, Http) {
    if runId == "" || name == "" then (db, BadRequest)
    else if runId !in db.runs then (db, NotFound)
    else if FindStudent(db, runId, name).Some? then (db, Success)
    else if id in db.students then (db, InternalError)
    else (db.(students := db.students[id := Student(runId, name, None)]), Created)
  }

  /** `None` stands for a status word the handler does not know. */
  function SetStatus(db: Db, runId: Id, status: Option<RunStatus>, now: Time): (Db, Http) {
    if runId == "" || status.None? then (db, BadRequest)
    else if runId !in db.runs then (db, NotFound)
    else
      var run := db.runs[runId].(status := status.value);
      var timed := match status.value
        case Running => run.(startedAt := Some(now))
        case Finished => run.(endedAt := Some(now))
        case Pending => run;
      (db.(runs := db.runs[runId := timed]), Success)
  }

  /** Writes a monitor to the student's row, when there is one. */
  function SaveStats(db: Db, m: Monitor): Db {
    if m.studentId in db.students
    then db.(students := db.students[m.studentId := db.students[m.studentId].(stats := Some(m))])
    else db
  }

  function ClearStats(db: Db, studentId: Id): Db {
    if studentId in db.students
    then db.(students := db.students[studentId := db.students[studentId].(stats := None)])
    else db
  }

  // ---------------------------------------------------------------- time

  /** The end of a run; the product with a minute is taken in 64 bits. */
  function EndsAt(startedAt: Time, minutes: Int64): Time {
    startedAt + Wrap64(minutes * 60 * SECOND)
  }

  predicate Expired(db: Db, runId: Id, now: Time) {
    && runId in db.runs
    && db.runs[runId].status == Running
    && db.runs[runId].startedAt.Some?
    && db.runs[runId].examId in db.exams
    && var minutes := db.exams[db.runs[runId].examId].settings.examDuration;
    && minutes > 0
    && now > EndsAt(db.runs[runId].startedAt.value, minutes)
  }

  function SettingsOf(db: Db, runId: Id): Settings {
    if runId in db.runs && db.runs[runId].examId in db.exams
    then db.exams[db.runs[runId].examId].settings
    else NO_SETTINGS
  }

  /** The difference of two times saturates at the ends of the 64-bit range. */
  function Until(end: Time, now: Time): Int64 {
    if end - now > INT64_MAX then INT64_MAX else if end - now < INT64_MIN then INT64_MIN else end - now
  }

  function RemainingSeconds(db: Db, runId: Id, now: Time): int {
    var minutes := SettingsOf(db, runId).examDuration;
    if runId in db.runs && db.runs[runId].startedAt.Some? && minutes > 0
    then
      var left := Until(EndsAt(db.runs[runId].startedAt.value, minutes), now);
      if left < 0 then 0 else left / SECOND
    else 0
  }

  function CloseRuns(db: Db, rs: set<Id>, now: Time): Db {
    db.(runs := map r | r in db.runs ::
      if r in rs then db.runs[r].(status := Finished, endedAt := Some(now)) else db.runs[r])
  }
}
