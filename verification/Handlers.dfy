/** What the checkers and the HTTP handlers do, read off the tables, the connections and the monitors. */
module Handlers {
  import opened Basics
  import opened CheatingEngine
  import opened Database
  import opened Protocol
  import opened Ownership
  import opened Integrity
  import opened Records

  // ---------------------------------------------------------------- the end of a run

  /** The run is running since `started`, and its exam lasts `minutes`. */
  predicate InProgress(db: Db, r: Id, started: Time, minutes: Int64) {
    && r in db.runs && db.runs[r].status == Running && db.runs[r].startedAt == Some(started)
    && db.runs[r].examId in db.exams && db.exams[db.runs[r].examId].settings.examDuration == minutes
  }

  /** A number of nanoseconds as the 64-bit duration that the machine keeps. */
  predicate KeptAs(exact: int, kept: int) {
    && -0x8000_0000_0000_0000 <= kept < 0x8000_0000_0000_0000
    && (exact - kept) % 0x1_0000_0000_0000_0000 == 0
  }

  lemma WrapIsKept(exact: int, kept: int)
    requires KeptAs(exact, kept)
    ensures Wrap64(exact) == kept
  {
    var q := (exact - kept) / 0x1_0000_0000_0000_0000;
    assert exact == kept + q * 0x1_0000_0000_0000_0000;
  }

  /**
   A pass of the expiry checker finishes a run in progress exactly when its time is over, counted from its start with
   the length that 64 bits keep of the duration; the run then ends at the time of the pass.
   */
  lemma PassEndsRunsThatAreOver(env: Env, w: World, now: Time, r: Id, started: Time, minutes: Int64, kept: int)
    requires InProgress(w.db, r, started, minutes) && minutes > 0
    requires KeptAs(minutes * 60_000_000_000, kept)
    ensures
      var w' := Next(env, w, At(now, ExpiryTick));
      && r in w'.db.runs
      && w'.db.runs[r] ==
           if now > started + kept then w.db.runs[r].(status := Finished, endedAt := Some(now)) else w.db.runs[r]
  {
    WrapIsKept(minutes * 60_000_000_000, kept);
    ExpiryClosesExactly(w.(now := now));
  }

  /** For durations up to 153722867 minutes this is the duration itself. */
  lemma PassEndsRunsOnTime(env: Env, w: World, now: Time, r: Id, started: Time, minutes: Int64)
    requires InProgress(w.db, r, started, minutes) && 0 < minutes <= 153722867
    ensures
      var w' := Next(env, w, At(now, ExpiryTick));
      && r in w'.db.runs
      && (if now > started + minutes * 60_000_000_000
          then w'.db.runs[r] == w.db.runs[r].(status := Finished, endedAt := Some(now))
          else w'.db.runs[r] == w.db.runs[r])
  {
    PassEndsRunsThatAreOver(env, w, now, r, started, minutes, minutes * 60_000_000_000);
  }

  /** A pass leaves every run alone that is not in progress or has no time limit. */
  lemma PassLeavesOtherRuns(env: Env, w: World, now: Time, r: Id)
    requires r in w.db.runs
    requires forall started, minutes :: InProgress(w.db, r, started, minutes) ==> minutes <= 0
    ensures r in Next(env, w, At(now, ExpiryTick)).db.runs
    ensures Next(env, w, At(now, ExpiryTick)).db.runs[r] == w.db.runs[r]
  {
    ExpiryClosesExactly(w.(now := now));
    if Expired(w.db, r, now) {
      assert InProgress(w.db, r, w.db.runs[r].startedAt.value,
                        w.db.exams[w.db.runs[r].examId].settings.examDuration);
    }
  }

  /** The step ends the run: it was running and is finished, or a teacher finishes it. */
  ghost predicate Ends(env: Env, w: World, step: Step, r: Id) {
    && r in w.db.runs
    && if step.action.ExpiryTick?
       then
         && w.db.runs[r].status == Running
         && r in Next(env, w, step).db.runs && Next(env, w, step).db.runs[r].status == Finished
       else step.action == SetStatusAction(r, Some(Finished)) && r != ""
  }

  ghost predicate Hears(env: Env, w: World, step: Step, c: ExamClient) {
    c in w.clients && w.clients[c].role == StudentRole && Ends(env, w, step, w.clients[c].runId)
  }

  /** The step marks the connections that hear of an end and their monitors, and nothing else of both. */
  ghost predicate HearersMarked(env: Env, w: World, step: Step) {
    var w' := Next(env, w, step);
    && w'.states == w.states && w'.clients.Keys == w.clients.Keys && w'.monitors.Keys == w.monitors.Keys
    && (forall c :: c in w.clients ==>
          w'.clients[c] == w.clients[c].(finished := w.clients[c].finished || Hears(env, w, step, c)))
    && (forall s :: s in w.monitors ==>
          w'.monitors[s] == w.monitors[s].(finished := w.monitors[s].finished ||
            exists c :: c in w.clients && Hears(env, w, step, c) && w.clients[c].cheating == s))
  }

  /**
   When a run ends, by a pass or by a teacher, exactly its students' connections and their monitors are marked as
   finished, and nothing else of connections and monitors changes.
   */
  lemma EndOfRunIsHeard(env: Env, w: World, step: Step)
    requires step.action.ExpiryTick? || step.action.SetStatusAction?
    ensures HearersMarked(env, w, step)
  {
    if step.action.ExpiryTick? {
      PassIsHeard(env, w, step);
    } else {
      StatusIsHeard(env, w, step);
    }
  }

  lemma NoticeMarksHearers(env: Env, w: World, step: Step, v: World, rs: set<Id>)
    requires v.clients == w.clients && v.monitors == w.monitors && v.states == w.states
    requires Next(env, w, step) == NotifyEnded(v, rs)
    requires forall c :: Hears(env, w, step, c) <==> c in w.clients && EndedClient(w.clients[c], rs)
    ensures HearersMarked(env, w, step)
  {
  }

  lemma NoHearers(env: Env, w: World, step: Step)
    requires Next(env, w, step).clients == w.clients && Next(env, w, step).monitors == w.monitors
    requires Next(env, w, step).states == w.states && forall c :: !Hears(env, w, step, c)
    ensures HearersMarked(env, w, step)
  {
  }

  lemma PassIsHeard(env: Env, w: World, step: Step)
    requires step.action.ExpiryTick?
    ensures HearersMarked(env, w, step)
  {
    var v := w.(now := step.now);
    var rs := ExpiredRuns(v.db, v.now);
    PassHears(env, w, step);
    NoticeMarksHearers(env, w, step, v.(db := CloseRuns(v.db, rs, v.now)), rs);
  }

  lemma PassHears(env: Env, w: World, step: Step)
    requires step.action.ExpiryTick?
    ensures forall c :: Hears(env, w, step, c) <==>
      c in w.clients && EndedClient(w.clients[c], ExpiredRuns(w.db, step.now))
  {
    ExpiryClosesExactly(w.(now := step.now));
  }

  lemma StatusIsHeard(env: Env, w: World, step: Step)
    requires step.action.SetStatusAction?
    ensures HearersMarked(env, w, step)
  {
    var r, v := step.action.runId, w.(now := step.now);
    if step.action.status == Some(Finished) && r != "" && r in w.db.runs {
      NoticeMarksHearers(env, w, step, v.(db := SetStatus(v.db, r, step.action.status, v.now).0), {r});
    } else {
      NoHearers(env, w, step);
    }
  }

  /** A status change of a run: the start is set by `running`, the end by `finished`, and nothing else of the tables. */
  lemma StatusIsStored(env: Env, w: World, step: Step)
    requires step.action.SetStatusAction?
    ensures
      var r, status, db' := step.action.runId, step.action.status, Next(env, w, step).db;
      var http := SetStatus(w.db, r, status, step.now).1;
      && (http == BadRequest <==> r == "" || status == None)
      && (http == NotFound <==> r != "" && status != None && r !in w.db.runs)
      && (http == BadRequest || http == NotFound ==> db' == w.db)
      && (r != "" && status != None && r in w.db.runs ==>
            && http == Success && db' == w.db.(runs := db'.runs)
            && db'.runs == w.db.runs[r := db'.runs[r]]
            && db'.runs[r].examId == w.db.runs[r].examId && db'.runs[r].status == status.value
            && db'.runs[r].startedAt == (if status == Some(Running) then Some(step.now) else w.db.runs[r].startedAt)
            && db'.runs[r].endedAt == (if status == Some(Finished) then Some(step.now) else w.db.runs[r].endedAt))
  {
  }

  // ---------------------------------------------------------------- monitors

  /**
   One pass of the heartbeat checker: every stored monitor gets what a pass does to it, the row of a flagged student
   holds its new record, and nothing else changes.
   */
  lemma HeartbeatPassEffect(env: Env, w: World, now: Time, sid: Id)
    requires Owned(w) && sid in w.states
    ensures
      var w', s := Next(env, w, At(now, HeartbeatTick)), w.states[sid];
      && w'.clients == w.clients && w'.states == w.states && SameRows(w.db, w'.db)
      && s in w.monitors && s in w'.monitors && TickEffect(w.monitors[s], w'.monitors[s], now)
      && (sid in w.db.students ==>
            w'.db.students[sid].stats ==
              if w'.monitors[s] != w.monitors[s] then Some(w'.monitors[s]) else w.db.students[sid].stats)
  {
    var v := w.(now := now);
    TickedEffect(w.monitors[w.states[sid]], now);
    HeartbeatsSameRows(v);
  }

  /** Clearing empties the flags and the score of the student's monitor, and no other. */
  lemma ClearedMonitors(env: Env, w: World, step: Step)
    requires Owned(w) && step.action.ClearFlagsAction?
    ensures
      var sid, w' := step.action.studentId, Next(env, w, step);
      && w'.clients == w.clients && w'.states == w.states && w'.monitors.Keys == w.monitors.Keys
      && forall s :: s in w.monitors ==>
           w'.monitors[s] == if w.monitors[s].studentId == sid
                             then w.monitors[s].(flags := [], score := 0) else w.monitors[s]
  {
    forall s | s in w.monitors && w.monitors[s].studentId == step.action.studentId
      ensures step.action.studentId in w.states && w.states[step.action.studentId] == s
    {
    }
  }

  /** ... and of the student's row: it holds the cleared monitor, or nothing when there is none. */
  lemma ClearedRows(env: Env, w: World, step: Step)
    requires MapOwned(w) && step.action.ClearFlagsAction?
    ensures
      var sid, db' := step.action.studentId, Next(env, w, step).db;
      && SameRows(w.db, db')
      && (forall t :: t in w.db.students && t != sid ==> db'.students[t] == w.db.students[t])
      && (sid != "" && sid in w.db.students ==>
            db'.students[sid].stats == if sid in w.states
                                       then Some(w.monitors[w.states[sid]].(flags := [], score := 0)) else None)
  {
    ClearSameRows(w.(now := step.now), step.action.studentId);
  }

  // ---------------------------------------------------------------- tables

  lemma TeacherIsStored(db: Db, id: Id, name: string, password: string, hash: string)
    ensures
      var (db', http) := RegisterTeacher(db, id, name, password, hash);
      && db' == db.(teachers := db'.teachers) && db.teachers <= db'.teachers
      && (http == BadRequest <==> name == "" || password == "")
      && (http == InternalError <==> http != BadRequest && exists t :: t in db.teachers && t.id == id)
      && (http == Created <==> |db'.teachers| == |db.teachers| + 1)
      && (http == Created || db' == db)
      && (http == Created ==> http != BadRequest && db'.teachers[|db.teachers|] == Teacher(id, name, hash))
  {
  }

  lemma ExamIsStored(db: Db, id: Id, owner: Id, name: string, settings: Settings)
    ensures
      var (db', http) := CreateExam(db, id, owner, name, settings);
      && (http == BadRequest <==> owner == "" || name == "" || !exists t :: t in db.teachers && t.id == owner)
      && (http == InternalError <==> http != BadRequest && id in db.exams)
      && (http == Created || db' == db)
      && (http != BadRequest && id !in db.exams ==>
            && http == Created && db' == db.(exams := db'.exams)
            && db'.exams.Keys == db.exams.Keys + {id} && (forall e :: e in db.exams ==> db'.exams[e] == db.exams[e])
            && db'.exams[id].createdBy == owner && db'.exams[id].name == name && db'.exams[id].settings == settings)
  {
  }

  predicate Busy(db: Db, examId: Id) {
    exists r :: r in db.runs && db.runs[r].examId == examId && db.runs[r].status == Running
  }

  lemma ExamEditIsStored(db: Db, id: Id, name: string, settings: Option<Settings>)
    ensures
      var (db', http) := UpdateExam(db, id, name, settings);
      && (http == BadRequest <==> id == "")
      && (http == NotFound <==> id != "" && id !in db.exams)
      && (http == Conflict <==> (id != "" && id in db.exams && Busy(db, id)))
      && (http == Success || db' == db)
      && (http == BadRequest || http == NotFound || http == Conflict || http == Success)
      && (http == Success ==>
            && db' == db.(exams := db'.exams) && db'.exams.Keys == db.exams.Keys
            && (forall e :: e in db.exams && e != id ==> db'.exams[e] == db.exams[e])
            && db'.exams[id].createdBy == db.exams[id].createdBy
            && db'.exams[id].name == (if name == "" then db.exams[id].name else name)
            && db'.exams[id].settings == (if settings == None then db.exams[id].settings else settings.value))
  {
  }

  lemma RunIsStored(db: Db, id: Id, examId: Id)
    ensures
      var (db', http) := CreateRun(db, id, examId);
      && (http == BadRequest <==> examId == "" || examId !in db.exams)
      && (http == InternalError <==> http != BadRequest && id in db.runs)
      && (http == Created || db' == db)
      && (http != BadRequest && id !in db.runs ==>
            && http == Created && db' == db.(runs := db'.runs)
            && db'.runs.Keys == db.runs.Keys + {id} && (forall r :: r in db.runs ==> db'.runs[r] == db.runs[r])
            && db'.runs[id].examId == examId && db'.runs[id].status == Pending
            && db'.runs[id].startedAt == None && db'.runs[id].endedAt == None)
  {
  }

  lemma StudentIsStored(db: Db, id: Id, runId: Id, name: string)
    ensures
      var (db', http) := RegisterStudent(db, id, runId, name);
      var known := exists s :: s in db.students && db.students[s].runId == runId && db.students[s].name == name;
      && (http == BadRequest <==> runId == "" || name == "")
      && (http == NotFound <==> http != BadRequest && runId !in db.runs)
      && (http == Success <==> runId != "" && name != "" && runId in db.runs && known)
      && (http == Created || db' == db)
      && (runId != "" && name != "" && runId in db.runs && !known && id !in db.students ==>
            && http == Created && db' == db.(students := db'.students)
            && db'.students.Keys == db.students.Keys + {id}
            && (forall s :: s in db.students ==> db'.students[s] == db.students[s])
            && db'.students[id].runId == runId && db'.students[id].name == name && db'.students[id].stats == None)
  {
    if exists s :: s in db.students && db.students[s].runId == runId && db.students[s].name == name {
      var s :| s in db.students && db.students[s].runId == runId && db.students[s].name == name;
      assert Matches(db, s, runId, name);
    }
    if RegisterStudent(db, id, runId, name).1 == Success {
      assert Matches(db, FindStudent(db, runId, name).value, runId, name);
    }
  }

  /** A deletion is refused for an empty or unknown identifier, and then changes nothing. */
  lemma DeletionReplies(db: Db, id: Id)
    ensures
      var (exams', http) := DeleteExam(db, id);
      && http == (if id == "" then BadRequest else if id !in db.exams then NotFound else Success)
      && (http == Success || exams' == db)
    ensures
      var (runs', http) := DeleteRun(db, id);
      && http == (if id == "" then BadRequest else if id !in db.runs then NotFound else Success)
      && (http == Success || runs' == db)
  {
  }

  /** Deleting a run removes it with its students and events, and nothing else. */
  lemma DeleteRunIsExact(db: Db, id: Id)
    requires id != "" && id in db.runs
    ensures
      var db' := DeleteRun(db, id).0;
      && db'.exams == db.exams && db'.teachers == db.teachers && db'.runs == db.runs - {id}
      && (forall s :: s in db'.students <==> s in db.students && db.students[s].runId != id)
      && (forall s :: s in db'.students ==> db'.students[s] == db.students[s])
      && (forall row :: row in db'.events <==> row in db.events && row.runId != id)
  {
  }
}
