/**
 One legal run of the server, step by step, from the empty state: a student's connection takes over another run,
 reports its finish there, and the tables are damaged.  When that other run is deleted, the student logs in again
 and its events are accepted as if it had never finished.
 */
module Damage {
  import opened Basics
  import opened Chain
  import opened CheatingEngine
  import opened Database
  import opened Protocol
  import opened Ownership
  import opened Integrity
  import opened Finality

  const NO_DETAIL := Detail([], false)

  function ToyCall(raw: Raw): Option<Call> {
    if raw == "login" then Some(Login("s", "own"))
    else if raw == "cross" then Some(TeacherLogin("t", "p", "other"))
    else if raw == "finish" then Some(Event(STUDENT_FINISHED, NO_DETAIL))
    else if raw == "copy" then Some(Event("clipboard_text", NO_DETAIL))
    else None
  }

  /** An environment for the run: messages are single words, and every password is right. */
  function ToyEnv(): Env {
    Env(Wire((raw: Raw) => raw, (raw: Raw) => Header(0, "")), ToyCall,
        (s: string) => s, (hash: string, p: string) => true)
  }

  function ExamSteps(): seq<Step> {
    []
    + [At(0, RegisterTeacherAction("t1", "t", "p", "h"))]
    + [At(0, CreateExamAction("e", "t1", "exam", NO_SETTINGS))]
  }

  /** A teacher, an exam with two runs, and a student in the first of them. */
  function TableSteps(): seq<Step> {
    ExamSteps()
    + [At(0, CreateRunAction("own", "e"))]
    + [At(0, CreateRunAction("other", "e"))]
    + [At(0, RegisterStudentAction("s1", "own", "s"))]
  }

  /** Both runs are started. */
  function SetupSteps(): seq<Step> {
    TableSteps() + [At(0, SetStatusAction("own", Some(Running)))] + [At(0, SetStatusAction("other", Some(Running)))]
  }

  const NEW_RUN := ExamRun("e", Pending, None, None)
  const EXAM_DB := Db([Teacher("t1", "t", "h")], map["e" := Exam("t1", "exam", NO_SETTINGS)], map[], map[], [])
  const OPEN_RUN := ExamRun("e", Running, Some(0), None)
  const OPEN_DB := EXAM_DB.(runs := map["own" := OPEN_RUN, "other" := OPEN_RUN],
                            students := map["s1" := Student("own", "s", None)])
  const FINISH_ROW := EventRow("f", "s1", "other", STUDENT_FINISHED, 0)

  // ---------------------------------------------------------------- building a run

  ghost predicate Leads(from: World, steps: seq<Step>, w: World) {
    Owned(from) && LegalRun(ToyEnv(), from, steps) && Exec(ToyEnv(), from, steps) == w
  }

  lemma OneMore(from: World, steps: seq<Step>, w: World, step: Step)
    requires Leads(from, steps, w) && Legal(w, step)
    ensures Leads(from, steps + [step], Next(ToyEnv(), w, step))
  {
    ExecStep(ToyEnv(), from, steps, step);
    assert (steps + [step])[..|steps|] == steps;
  }

  const TEACHER_DB := EMPTY_DB.(teachers := EXAM_DB.teachers)

  lemma TeacherReaches()
    ensures Leads(START, [] + [At(0, RegisterTeacherAction("t1", "t", "p", "h"))], START.(db := TEACHER_DB))
  {
    assert Leads(START, [], START);
    TableStep([], EMPTY_DB, TEACHER_DB, At(0, RegisterTeacherAction("t1", "t", "p", "h")));
  }

  lemma ExamStepsReach()
    ensures Leads(START, ExamSteps(), START.(db := EXAM_DB))
  {
    TeacherReaches();
    TableStep([] + [At(0, RegisterTeacherAction("t1", "t", "p", "h"))], TEACHER_DB, EXAM_DB,
              At(0, CreateExamAction("e", "t1", "exam", NO_SETTINGS)));
  }

  lemma RunStepsReach()
    ensures Leads(START, ExamSteps() + [At(0, CreateRunAction("own", "e"))] + [At(0, CreateRunAction("other", "e"))],
                  START.(db := EXAM_DB.(runs := map["own" := NEW_RUN, "other" := NEW_RUN])))
  {
    var d2 := EXAM_DB.(runs := map["own" := NEW_RUN]);
    var d3 := EXAM_DB.(runs := map["own" := NEW_RUN, "other" := NEW_RUN]);
    ExamStepsReach();
    TableStep(ExamSteps(), EXAM_DB, d2, At(0, CreateRunAction("own", "e")));
    TableStep(ExamSteps() + [At(0, CreateRunAction("own", "e"))], d2, d3, At(0, CreateRunAction("other", "e")));
  }

  lemma TableStepsReach()
    ensures Leads(START, TableSteps(), START.(db := OPEN_DB.(runs := map["own" := NEW_RUN, "other" := NEW_RUN])))
  {
    var d3 := EXAM_DB.(runs := map["own" := NEW_RUN, "other" := NEW_RUN]);
    RunStepsReach();
    TableStep(ExamSteps() + [At(0, CreateRunAction("own", "e"))] + [At(0, CreateRunAction("other", "e"))], d3,
              d3.(students := OPEN_DB.students), At(0, RegisterStudentAction("s1", "own", "s")));
  }

  /** After the setup nobody is connected and the tables are `OPEN_DB`. */
  lemma SetupReaches()
    ensures Leads(START, SetupSteps(), START.(db := OPEN_DB))
  {
    TableStepsReach();
    var d4 := OPEN_DB.(runs := map["own" := NEW_RUN, "other" := NEW_RUN]);
    var d5 := OPEN_DB.(runs := map["own" := OPEN_RUN, "other" := NEW_RUN]);
    TableStep(TableSteps(), d4, d5, At(0, SetStatusAction("own", Some(Running))));
    TableStep(TableSteps() + [At(0, SetStatusAction("own", Some(Running)))], d5, OPEN_DB,
              At(0, SetStatusAction("other", Some(Running))));
  }

  lemma TableStep(steps: seq<Step>, db: Db, db': Db, step: Step)
    requires Leads(START, steps, START.(db := db)) && Legal(START.(db := db), step)
    requires Next(ToyEnv(), START.(db := db), step) == START.(db := db')
    ensures Leads(START, steps + [step], START.(db := db'))
  {
    OneMore(START, steps, START.(db := db), step);
  }

  // ---------------------------------------------------------------- messages

  /** The tables are `base` up to statistics, and `c` is the only connection, with these fields. */
  ghost predicate On(w: World, base: Db, c: ExamClient, sid: Id, run: Id, finished: bool) {
    && w.now == 0 && SameRows(base, w.db) && w.clients.Keys == {c}
    && w.clients[c].studentId == sid && w.clients[c].runId == run && w.clients[c].finished == finished
  }

  ghost predicate SameMonitors(w: World, w': World) {
    w'.states == w.states && w'.monitors == w.monitors
  }

  ghost predicate Offline(w: World, base: Db) {
    w.now == 0 && SameRows(base, w.db) && w.clients == map[]
  }

  /** The student of the run exists, the run is running, and the student has not finished. */
  ghost predicate Open(base: Db) {
    && base.students.Keys == {"s1"} && base.students["s1"].runId == "own" && base.students["s1"].name == "s"
    && RunIs(base, "own", Running) && !HasFinished(base.events, "s1")
  }

  function Send(c: ExamClient, raw: Raw, id: Id, cell: CheatingState): Step {
    At(0, Message(c, raw, id, cell))
  }

  /** A message at time 0 is checked and handed on, and starts the chain of a connection without a monitor. */
  lemma SendIs(w: World, c: ExamClient, raw: Raw, id: Id, cell: CheatingState)
    requires w.now == 0 && c in w.clients && ToyCall(raw).Some?
    ensures
      var w1 := CheckChain(ToyEnv(), w, c, raw, 0);
      var w2 := Dispatch(ToyEnv(), w1, c, ToyCall(raw).value, id, cell, 0);
      Next(ToyEnv(), w, Send(c, raw, id, cell)) ==
      if w.clients[c].cheating == null then StartChain(ToyEnv(), w2, c, raw) else w2
  {
    assert w.(now := 0) == w;
  }

  lemma ConnectOn(w: World, base: Db, c: ExamClient)
    requires Offline(w, base)
    ensures On(Next(ToyEnv(), w, At(0, Connect(c))), base, c, "", "", false)
    ensures SameMonitors(w, Next(ToyEnv(), w, At(0, Connect(c))))
  {
  }

  lemma OpenLogin(w: World, base: Db, c: ExamClient)
    requires On(w, base, c, "", "", false) && Open(base)
    ensures LoginStatus(w, c, "s", "own") == 0 && FindStudent(w.db, "own", "s") == Some("s1")
  {
    assert Matches(w.db, "s1", "own", "s");
    var found := FindStudent(w.db, "own", "s").value;
    assert found in w.db.students.Keys;
  }

  lemma LoginOn(w: World, base: Db, c: ExamClient, cell: CheatingState)
    requires Owned(w) && On(w, base, c, "", "", false) && Open(base) && cell !in w.monitors
    ensures
      var w' := Next(ToyEnv(), w, Send(c, "login", "", cell));
      && On(w', base, c, "s1", "own", false) && w'.monitors.Keys <= w.monitors.Keys + {cell}
      && ("s1" in w.states ==> w'.monitors.Keys == w.monitors.Keys)
  {
    SendIs(w, c, "login", "", cell);
    assert ClientOwned(w, w.clients[c]);
    assert CheckChain(ToyEnv(), w, c, "login", 0) == w;
    LoginOnCall(w, base, c, cell);
    StartOn(Dispatch(ToyEnv(), w, c, Login("s", "own"), "", cell, 0), base, c);
  }

  lemma StartOn(w: World, base: Db, c: ExamClient)
    requires On(w, base, c, "s1", "own", false)
    ensures
      var w' := StartChain(ToyEnv(), w, c, "login");
      On(w', base, c, "s1", "own", false) && w'.monitors.Keys == w.monitors.Keys
  {
  }

  lemma LoginOnCall(w: World, base: Db, c: ExamClient, cell: CheatingState)
    requires On(w, base, c, "", "", false) && Open(base) && MapOwned(w)
    ensures
      var w' := Dispatch(ToyEnv(), w, c, Login("s", "own"), "", cell, 0);
      && On(w', base, c, "s1", "own", false) && w'.monitors.Keys <= w.monitors.Keys + {cell}
      && ("s1" in w.states ==> w'.monitors.Keys == w.monitors.Keys)
  {
    OpenLogin(w, base, c);
    LoginSameRows(w, c, "s1", cell, 0);
  }

  /** The chain check of a message, as far as this run is concerned. */
  lemma CheckedOn(w: World, base: Db, c: ExamClient, raw: Raw, sid: Id, run: Id, finished: bool)
    requires On(w, base, c, sid, run, finished)
    ensures
      var w' := CheckChain(ToyEnv(), w, c, raw, 0);
      On(w', base, c, sid, run, finished) && w'.monitors.Keys == w.monitors.Keys && w'.clients == w.clients
  {
    CheckChainSameRows(ToyEnv(), w, c, raw, 0);
    CheckChainSameOwners(ToyEnv(), w, c, raw, 0);
  }

  lemma CrossOnCall(w: World, base: Db, c: ExamClient, id: Id, cell: CheatingState)
    requires On(w, base, c, "s1", "own", false) && base.teachers == OPEN_DB.teachers
    ensures
      var w' := Dispatch(ToyEnv(), w, c, TeacherLogin("t", "p", "other"), id, cell, 0);
      On(w', base, c, "s1", "other", false) && w'.monitors.Keys == w.monitors.Keys
  {
    assert TeacherNamed(w.db.teachers, "t") == Some(Teacher("t1", "t", "h"));
    assert TeacherLoginStatus(ToyEnv(), w, "t", "p", "other") == 0;
  }

  lemma CrossOn(w: World, base: Db, c: ExamClient, cell: CheatingState)
    requires Owned(w) && On(w, base, c, "s1", "own", false) && base.teachers == OPEN_DB.teachers
    ensures
      var w' := Next(ToyEnv(), w, Send(c, "cross", "", cell));
      On(w', base, c, "s1", "other", false) && w'.monitors.Keys == w.monitors.Keys
  {
    SendIs(w, c, "cross", "", cell);
    assert ClientOwned(w, w.clients[c]);
    CheckedOn(w, base, c, "cross", "s1", "own", false);
    CrossOnCall(CheckChain(ToyEnv(), w, c, "cross", 0), base, c, "", cell);
  }

  lemma EventOnCall(w: World, base: Db, c: ExamClient, run: Id, event: string, id: Id, cell: CheatingState)
    requires On(w, base, c, "s1", run, false) && event != ""
    requires RunIs(base, run, Running) && !EventIdTaken(base.events, id)
    ensures
      var w' := Dispatch(ToyEnv(), w, c, Event(event, NO_DETAIL), id, cell, 0);
      && EventStatus(w, c, event, id) == 0
      && On(w', base.(events := base.events + [EventRow(id, "s1", run, event, 0)]), c, "s1", run,
            event == STUDENT_FINISHED)
      && w'.monitors.Keys == w.monitors.Keys
  {
    EventRows(ToyEnv(), w, c, event, NO_DETAIL, id, 0);
    EventSameOwners(ToyEnv(), w, c, event, NO_DETAIL, id, 0);
  }

  /** An event of a logged-in connection is accepted. */
  lemma EventOn(w: World, base: Db, c: ExamClient, run: Id, raw: Raw, event: string, id: Id, cell: CheatingState)
    requires Owned(w) && On(w, base, c, "s1", run, false)
    requires ToyCall(raw) == Some(Event(event, NO_DETAIL)) && event != ""
    requires RunIs(base, run, Running) && !EventIdTaken(base.events, id)
    ensures
      var w' := Next(ToyEnv(), w, Send(c, raw, id, cell));
      var row := EventRow(id, "s1", run, event, 0);
      && Accepted(ToyEnv(), w, Send(c, raw, id, cell)) == Some(row)
      && On(w', base.(events := base.events + [row]), c, "s1", run, event == STUDENT_FINISHED)
      && w'.monitors.Keys == w.monitors.Keys
  {
    SendIs(w, c, raw, id, cell);
    assert ClientOwned(w, w.clients[c]);
    CheckedOn(w, base, c, raw, "s1", run, false);
    EventOnCall(CheckChain(ToyEnv(), w, c, raw, 0), base, c, run, event, id, cell);
    assert EventStatus(w, c, event, id) == 0;
  }

  // ---------------------------------------------------------------- the run

  /** The student is logged in. */
  function LoginRun(c: ExamClient, cell: CheatingState): seq<Step> {
    SetupSteps() + [At(0, Connect(c))] + [Send(c, "login", "", cell)]
  }

  /** ... takes over the other run as a teacher, and reports the finish. */
  function DamagingRun(c: ExamClient, cell: CheatingState, spare: CheatingState): seq<Step> {
    LoginRun(c, cell) + [Send(c, "cross", "", spare)] + [Send(c, "finish", "f", spare)]
  }

  lemma ThenConnect(from: World, steps: seq<Step>, w: World, base: Db, c: ExamClient) returns (w': World)
    requires Leads(from, steps, w) && Offline(w, base)
    ensures Leads(from, steps + [At(0, Connect(c))], w') && On(w', base, c, "", "", false) && SameMonitors(w, w')
  {
    ConnectOn(w, base, c);
    OneMore(from, steps, w, At(0, Connect(c)));
    w' := Next(ToyEnv(), w, At(0, Connect(c)));
  }

  lemma ThenLogin(from: World, steps: seq<Step>, w: World, base: Db, c: ExamClient, cell: CheatingState)
    returns (w': World)
    requires Leads(from, steps, w) && On(w, base, c, "", "", false) && Open(base) && cell !in w.monitors
    ensures Leads(from, steps + [Send(c, "login", "", cell)], w') && On(w', base, c, "s1", "own", false)
    ensures w'.monitors.Keys <= w.monitors.Keys + {cell}
    ensures "s1" in w.states ==> w'.monitors.Keys == w.monitors.Keys
  {
    ExecKeepsOwned(ToyEnv(), from, steps);
    LoginOn(w, base, c, cell);
    OneMore(from, steps, w, Send(c, "login", "", cell));
    w' := Next(ToyEnv(), w, Send(c, "login", "", cell));
  }

  lemma ThenCross(from: World, steps: seq<Step>, w: World, base: Db, c: ExamClient, cell: CheatingState)
    returns (w': World)
    requires Leads(from, steps, w) && On(w, base, c, "s1", "own", false) && cell !in w.monitors
    requires base.teachers == OPEN_DB.teachers
    ensures Leads(from, steps + [Send(c, "cross", "", cell)], w') && On(w', base, c, "s1", "other", false)
    ensures w'.monitors.Keys == w.monitors.Keys
  {
    ExecKeepsOwned(ToyEnv(), from, steps);
    CrossOn(w, base, c, cell);
    OneMore(from, steps, w, Send(c, "cross", "", cell));
    w' := Next(ToyEnv(), w, Send(c, "cross", "", cell));
  }

  lemma ThenFinish(from: World, steps: seq<Step>, w: World, base: Db, c: ExamClient, cell: CheatingState)
    returns (w': World)
    requires Leads(from, steps, w) && On(w, base, c, "s1", "other", false) && cell !in w.monitors
    requires RunIs(base, "other", Running) && base.events == []
    ensures Leads(from, steps + [Send(c, "finish", "f", cell)], w')
    ensures On(w', base.(events := [FINISH_ROW]), c, "s1", "other", true) && w'.monitors.Keys == w.monitors.Keys
  {
    ExecKeepsOwned(ToyEnv(), from, steps);
    EventOn(w, base, c, "other", "finish", STUDENT_FINISHED, "f", cell);
    OneMore(from, steps, w, Send(c, "finish", "f", cell));
    w' := Next(ToyEnv(), w, Send(c, "finish", "f", cell));
    assert base.events + [FINISH_ROW] == [FINISH_ROW];
  }

  lemma OpenIsOpen()
    ensures Open(OPEN_DB) && RunIs(OPEN_DB, "other", Running)
  {
  }

  lemma LoginReaches(c: ExamClient, cell: CheatingState) returns (w: World)
    ensures Leads(START, LoginRun(c, cell), w) && On(w, OPEN_DB, c, "s1", "own", false) && w.monitors.Keys <= {cell}
  {
    SetupReaches();
    OpenIsOpen();
    w := ThenConnect(START, SetupSteps(), START.(db := OPEN_DB), OPEN_DB, c);
    w := ThenLogin(START, SetupSteps() + [At(0, Connect(c))], w, OPEN_DB, c, cell);
  }

  lemma DamagedReaches(c: ExamClient, cell: CheatingState, spare: CheatingState) returns (w: World)
    requires cell != spare
    ensures Leads(START, DamagingRun(c, cell, spare), w)
    ensures On(w, OPEN_DB.(events := [FINISH_ROW]), c, "s1", "other", true) && w.monitors.Keys <= {cell}
  {
    OpenIsOpen();
    w := LoginReaches(c, cell);
    w := ThenCross(START, LoginRun(c, cell), w, OPEN_DB, c, spare);
    w := ThenFinish(START, LoginRun(c, cell) + [Send(c, "cross", "", spare)], w, OPEN_DB, c, spare);
  }

  /** A legal run from the empty state leaves an event row of a run that is not its student's. */
  lemma DamageIsReachable(c: ExamClient, cell: CheatingState, spare: CheatingState)
    requires cell != spare
    ensures LegalRun(ToyEnv(), START, DamagingRun(c, cell, spare))
    ensures
      var db := Exec(ToyEnv(), START, DamagingRun(c, cell, spare)).db;
      FINISH_ROW in db.events && !RowOwned(db, FINISH_ROW.studentId, FINISH_ROW.runId) && !DbSound(db)
  {
    var w := DamagedReaches(c, cell, spare);
    assert FINISH_ROW in w.db.events;
  }

  // ---------------------------------------------------------------- finished, and back again

  lemma ThenDisconnect(from: World, steps: seq<Step>, w: World, base: Db, c: ExamClient) returns (w': World)
    requires Leads(from, steps, w) && w.now == 0 && SameRows(base, w.db) && w.clients.Keys == {c}
    ensures Leads(from, steps + [At(0, Disconnect(c))], w') && Offline(w', base) && SameMonitors(w, w')
  {
    OneMore(from, steps, w, At(0, Disconnect(c)));
    w' := Next(ToyEnv(), w, At(0, Disconnect(c)));
  }

  const FINISHED_DB := OPEN_DB.(events := [FINISH_ROW])
  const REOPENED_DB := OPEN_DB.(runs := map["own" := OPEN_RUN])

  lemma DeletionReopens(db: Db)
    requires SameRows(FINISHED_DB, db)
    ensures SameRows(REOPENED_DB, DeleteRun(db, "other").0) && Reopens(db, At(0, DeleteRunAction("other")), "s1")
  {
    assert db.events == [FINISH_ROW] && FinishedRow(db.events[0], "s1");
    var db' := DeleteRun(db, "other").0;
    assert db.events[..0] == [] && WithoutRuns([], {"other"}) == [];
    assert db'.events == [];
    assert db'.runs == REOPENED_DB.runs;
    assert db'.students == db.students;
  }

  lemma ThenDelete(from: World, steps: seq<Step>, w: World) returns (w': World)
    requires Leads(from, steps, w) && Offline(w, FINISHED_DB)
    ensures Leads(from, steps + [At(0, DeleteRunAction("other"))], w')
    ensures Offline(w', REOPENED_DB) && SameMonitors(w, w')
  {
    DeletionReopens(w.db);
    OneMore(from, steps, w, At(0, DeleteRunAction("other")));
    w' := Next(ToyEnv(), w, At(0, DeleteRunAction("other")));
  }

  /** The first connection closes, and the other run is deleted. */
  function Deletion(c: ExamClient): seq<Step> {
    [] + [At(0, Disconnect(c))] + [At(0, DeleteRunAction("other"))]
  }

  lemma DeletionLeads(from: World, c: ExamClient) returns (w: World)
    requires Owned(from) && On(from, FINISHED_DB, c, "s1", "other", true)
    ensures Leads(from, Deletion(c), w) && Offline(w, REOPENED_DB) && SameMonitors(from, w) && "s1" in w.states
  {
    assert ClientOwned(from, from.clients[c]);
    w := ThenDisconnect(from, [], from, FINISHED_DB, c);
    w := ThenDelete(from, [] + [At(0, Disconnect(c))], w);
  }

  /** The student logs in on another connection, and works. */
  function BackAtWork(c: ExamClient, d: ExamClient, spare: CheatingState): seq<Step> {
    Deletion(c) + [At(0, Connect(d))] + [Send(d, "login", "", spare)] + [Send(d, "copy", "g", spare)]
  }

  lemma OnlineLeads(from: World, c: ExamClient, d: ExamClient) returns (w: World)
    requires Owned(from) && On(from, FINISHED_DB, c, "s1", "other", true)
    ensures Leads(from, Deletion(c) + [At(0, Connect(d))], w)
    ensures On(w, REOPENED_DB, d, "", "", false) && SameMonitors(from, w) && "s1" in w.states
  {
    w := DeletionLeads(from, c);
    w := ThenConnect(from, Deletion(c), w, REOPENED_DB, d);
  }

  lemma ReopenedIsOpen()
    ensures Open(REOPENED_DB)
  {
  }

  lemma BackInLeads(from: World, c: ExamClient, d: ExamClient, spare: CheatingState) returns (w: World)
    requires Owned(from) && spare !in from.monitors
    requires On(from, FINISHED_DB, c, "s1", "other", true)
    ensures Leads(from, Deletion(c) + [At(0, Connect(d))] + [Send(d, "login", "", spare)], w)
    ensures On(w, REOPENED_DB, d, "s1", "own", false) && spare !in w.monitors
  {
    ReopenedIsOpen();
    w := OnlineLeads(from, c, d);
    w := ThenLogin(from, Deletion(c) + [At(0, Connect(d))], w, REOPENED_DB, d, spare);
  }

  lemma CopyIsAccepted(from: World, steps: seq<Step>, w: World, d: ExamClient, cell: CheatingState)
    requires Leads(from, steps, w) && On(w, REOPENED_DB, d, "s1", "own", false) && cell !in w.monitors
    ensures LegalRun(ToyEnv(), from, steps + [Send(d, "copy", "g", cell)])
    ensures !OnlyFinishes(ToyEnv(), from, steps + [Send(d, "copy", "g", cell)], "s1")
  {
    var last := Send(d, "copy", "g", cell);
    ExecKeepsOwned(ToyEnv(), from, steps);
    EventOn(w, REOPENED_DB, d, "own", "copy", "clipboard_text", "g", cell);
    OneMore(from, steps, w, last);
    assert (steps + [last])[..|steps|] == steps;
  }

  /**
   With a crossing login and a deletion, finishing is not final: after the damaging run the student has a finish row,
   and a legal continuation has one of its later events accepted that is not a finish event.
   */
  lemma FinishIsNotFinal(c: ExamClient, d: ExamClient, cell: CheatingState, spare: CheatingState)
    requires cell != spare
    ensures
      var w, future := Exec(ToyEnv(), START, DamagingRun(c, cell, spare)), BackAtWork(c, d, spare);
      && LegalRun(ToyEnv(), START, DamagingRun(c, cell, spare)) && HasFinished(w.db.events, "s1")
      && LegalRun(ToyEnv(), w, future) && !OnlyFinishes(ToyEnv(), w, future, "s1")
  {
    var w := DamagedReaches(c, cell, spare);
    ReachableOwned(ToyEnv(), DamagingRun(c, cell, spare));
    assert w.db.events == [FINISH_ROW] && FinishedRow(w.db.events[0], "s1");
    var back := BackInLeads(w, c, d, spare);
    CopyIsAccepted(w, Deletion(c) + [At(0, Connect(d))] + [Send(d, "login", "", spare)], back, d, spare);
  }
}
