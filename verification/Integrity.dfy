/** Referential integrity of the tables, which the database itself does not enforce. */
module Integrity {
  import opened Basics
  import opened Chain
  import opened CheatingEngine
  import opened Database
  import opened Protocol
  import opened Ownership

  ghost predicate ParentsExist(db: Db) {
    && (forall e :: e in db.exams ==> IsTeacher(db, db.exams[e].createdBy))
    && (forall r :: r in db.runs ==> db.runs[r].examId in db.exams)
    && (forall s :: s in db.students ==> db.students[s].runId in db.runs)
  }

  predicate RowOwned(db: Db, studentId: Id, runId: Id) {
    studentId in db.students && db.students[studentId].runId == runId
  }

  ghost predicate EventsOwned(db: Db) {
    forall row :: row in db.events ==> RowOwned(db, row.studentId, row.runId)
  }

  /** A connection with a student points at that student's run, or at no run at all. */
  predicate OnOwnRun(db: Db, v: ClientView) {
    v.studentId != "" && v.runId in db.runs ==> RowOwned(db, v.studentId, v.runId)
  }

  ghost predicate ClientsOnOwnRun(w: World) {
    forall c :: c in w.clients ==> OnOwnRun(w.db, w.clients[c])
  }

  ghost predicate DbSound(db: Db) {
    ParentsExist(db) && UniqueNames(db) && EventsOwned(db)
  }

  ghost predicate Sound(w: World) {
    DbSound(w.db) && ClientsOnOwnRun(w)
  }

  // ---------------------------------------------------------------- statements

  /** The tables differ at most in the statistics column. */
  ghost predicate SameRows(db: Db, db': Db) {
    && db' == db.(students := db'.students)
    && db'.students.Keys == db.students.Keys
    && (forall s :: s in db.students ==>
          db'.students[s].runId == db.students[s].runId && db'.students[s].name == db.students[s].name)
  }

  lemma SameRowsKeepSound(w: World, w': World)
    requires Sound(w) && SameRows(w.db, w'.db) && w'.clients.Keys <= w.clients.Keys
    requires forall c :: c in w'.clients ==>
      w'.clients[c].studentId == w.clients[c].studentId && w'.clients[c].runId == w.clients[c].runId
    ensures Sound(w')
  {
    forall c | c in w'.clients ensures OnOwnRun(w'.db, w'.clients[c]) {
      assert OnOwnRun(w.db, w.clients[c]);
    }
  }

  /** Deleting runs together with their students and events, then perhaps an exam without runs. */
  lemma CascadeKeepsSound(w: World, gone: set<Id>, exams: set<Id>)
    requires Sound(w)
    requires forall r :: r in w.db.runs && w.db.runs[r].examId in exams ==> r in gone
    ensures
      var db := DeleteRuns(DeleteStudents(DeleteEvents(w.db, gone), gone), gone);
      Sound(w.(db := db.(exams := db.exams - exams)))
  {
    var db := DeleteRuns(DeleteStudents(DeleteEvents(w.db, gone), gone), gone);
    var db' := db.(exams := db.exams - exams);
    assert ParentsExist(db') by {
      forall e | e in db'.exams ensures IsTeacher(db', db'.exams[e].createdBy) {
        assert IsTeacher(w.db, w.db.exams[e].createdBy);
      }
    }
    forall row | row in db'.events ensures RowOwned(db', row.studentId, row.runId) {
      assert row in w.db.events && row.runId !in gone;
      assert RowOwned(w.db, row.studentId, row.runId);
    }
    forall c | c in w.clients ensures OnOwnRun(db', w.clients[c]) {
      assert OnOwnRun(w.db, w.clients[c]);
    }
  }

  /** Teachers, exams and runs may be added or renamed; students, events and connections stay. */
  ghost predicate Grown(w: World, w': World) {
    && w'.clients == w.clients
    && w'.db.students == w.db.students && w'.db.events == w.db.events
    && w.db.teachers <= w'.db.teachers
    && w.db.exams.Keys <= w'.db.exams.Keys && w.db.runs.Keys <= w'.db.runs.Keys
    && (forall e :: e in w'.db.exams ==>
          if e in w.db.exams then w'.db.exams[e].createdBy == w.db.exams[e].createdBy
          else IsTeacher(w.db, w'.db.exams[e].createdBy))
    && (forall r :: r in w'.db.runs ==>
          if r in w.db.runs then w'.db.runs[r].examId == w.db.runs[r].examId else w'.db.runs[r].examId in w.db.exams)
    && (forall c :: c in w.clients && w.clients[c].runId in w'.db.runs ==> w.clients[c].runId in w.db.runs)
  }

  lemma GrowthKeepsSound(w: World, w': World)
    requires Sound(w) && Grown(w, w')
    ensures Sound(w')
  {
    forall e | e in w'.db.exams ensures IsTeacher(w'.db, w'.db.exams[e].createdBy) {
      assert IsTeacher(w.db, w'.db.exams[e].createdBy);
    }
    forall row | row in w'.db.events ensures RowOwned(w'.db, row.studentId, row.runId) {
      assert RowOwned(w.db, row.studentId, row.runId);
    }
    forall c | c in w'.clients ensures OnOwnRun(w'.db, w'.clients[c]) {
      assert OnOwnRun(w.db, w.clients[c]);
    }
  }

  lemma RegistrationKeepsSound(w: World, id: Id, runId: Id, name: string)
    requires Sound(w) && id !in w.db.students
    ensures Sound(w.(db := RegisterStudent(w.db, id, runId, name).0))
  {
    var w' := w.(db := RegisterStudent(w.db, id, runId, name).0);
    if w' != w {
      assert forall s :: s in w.db.students ==> !Matches(w.db, s, runId, name);
      ExamsStay(w.db, w'.db);
      forall row | row in w'.db.events ensures RowOwned(w'.db, row.studentId, row.runId) {
        assert RowOwned(w.db, row.studentId, row.runId);
      }
      forall c | c in w'.clients ensures OnOwnRun(w'.db, w'.clients[c]) {
        assert OnOwnRun(w.db, w.clients[c]);
      }
    }
  }

  lemma TeacherGrows(w: World, id: Id, name: string, password: string, hash: string)
    ensures Grown(w, w.(db := RegisterTeacher(w.db, id, name, password, hash).0))
  {
  }

  lemma ExamGrows(w: World, id: Id, owner: Id, name: string, settings: Settings)
    ensures Grown(w, w.(db := CreateExam(w.db, id, owner, name, settings).0))
  {
  }

  lemma ExamEditGrows(w: World, id: Id, name: string, settings: Option<Settings>)
    ensures Grown(w, w.(db := UpdateExam(w.db, id, name, settings).0))
  {
  }

  lemma RunGrows(w: World, id: Id, examId: Id)
    requires forall c :: c in w.clients ==> w.clients[c].runId != id
    ensures Grown(w, w.(db := CreateRun(w.db, id, examId).0))
  {
  }

  lemma AdditionGrows(env: Env, w: World, a: Action)
    requires Legal(w, At(w.now, a))
    requires a.RegisterTeacherAction? || a.CreateExamAction? || a.UpdateExamAction? || a.CreateRunAction?
    ensures Grown(w, Act(env, w, a))
  {
    if a.RegisterTeacherAction? {
      TeacherGrows(w, a.id, a.name, a.password, a.hash);
    } else if a.CreateExamAction? {
      ExamGrows(w, a.id, a.createdBy, a.name, a.settings);
    } else if a.UpdateExamAction? {
      ExamEditGrows(w, a.id, a.name, a.newSettings);
    } else {
      RunGrows(w, a.id, a.examId);
    }
  }

  lemma TableActionKeepsSound(env: Env, w: World, a: Action)
    requires Sound(w) && TableAction(a)
    requires Legal(w, At(w.now, a))
    ensures Sound(Act(env, w, a))
  {
    match a
    case DeleteExamAction(id) => CascadeKeepsSound(w, RunsOf(w.db, id), {id});
    case DeleteRunAction(id) =>
      CascadeKeepsSound(w, {id}, {});
      assert w.db.exams - {} == w.db.exams;
    case RegisterStudentAction(id, runId, name) => RegistrationKeepsSound(w, id, runId, name);
    case _ =>
      AdditionGrows(env, w, a);
      GrowthKeepsSound(w, Act(env, w, a));
  }

  // ---------------------------------------------------------------- messages

  lemma CheckChainSameRows(env: Env, w: World, c: ExamClient, raw: Raw, now: Time)
    ensures SameRows(w.db, CheckChain(env, w, c, raw, now).db)
  {
  }

  lemma EventRows(env: Env, w: World, c: ExamClient, event: string, detail: Detail, id: Id, now: Time)
    requires c in w.clients
    ensures
      var w' := DoEvent(env, w, c, event, detail, id, now);
      var row := EventRow(id, w.clients[c].studentId, w.clients[c].runId, event, now);
      && SameRows(w.db.(events := w.db.events + [row]), w'.db)
      && w'.clients == w.clients[c := w.clients[c].(finished := w.clients[c].finished || event == STUDENT_FINISHED)]
  {
  }

  /** An accepted event of a connection on its own run keeps the tables sound; of any other it does not. */
  lemma EventKeepsSoundIff(env: Env, w: World, c: ExamClient, event: string, detail: Detail, id: Id, now: Time)
    requires DbSound(w.db) && c in w.clients && EventStatus(w, c, event, id) == 0
    ensures DbSound(DoEvent(env, w, c, event, detail, id, now).db) <==> OnOwnRun(w.db, w.clients[c])
  {
    var v := w.clients[c];
    var row := EventRow(id, v.studentId, v.runId, event, now);
    var w' := DoEvent(env, w, c, event, detail, id, now);
    EventRows(env, w, c, event, detail, id, now);
    assert w'.db.events == w.db.events + [row];
    assert ParentsExist(w'.db) by { assert ParentsExist(w.db); TeachersStay(w.db, w'.db); }
    assert row in w'.db.events;
    if OnOwnRun(w.db, v) {
      forall r | r in w'.db.events ensures RowOwned(w'.db, r.studentId, r.runId) {
        assert r == row || r in w.db.events;
      }
    }
  }

  lemma TeachersStay(db: Db, db': Db)
    requires SameRows(db.(events := db'.events), db') && ParentsExist(db)
    ensures ParentsExist(db')
  {
    ExamsStay(db, db');
  }

  lemma ExamsStay(db: Db, db': Db)
    requires ParentsExist(db) && db'.teachers == db.teachers && db'.exams == db.exams
    ensures forall e :: e in db'.exams ==> IsTeacher(db', db'.exams[e].createdBy)
  {
    forall e | e in db'.exams ensures IsTeacher(db', db'.exams[e].createdBy) {
      assert IsTeacher(db, db.exams[e].createdBy);
    }
  }

  /** A teacher login on a connection that has a student and turns it to a run that is not that student's. */
  ghost predicate Crosses(env: Env, w: World, c: ExamClient, call: Call) {
    && call.TeacherLogin?
    && TeacherLoginStatus(env, w, call.name, call.password, call.runId) == 0
    && c in w.clients
    && !OnOwnRun(w.db, w.clients[c].(runId := call.runId))
  }

  ghost predicate CrossingStep(env: Env, w: World, step: Step) {
    && step.action.Message?
    && env.decode(step.action.raw).Some?
    && Crosses(env, w, step.action.c, env.decode(step.action.raw).value)
  }

  lemma DispatchKeepsSoundIff(env: Env, w: World, c: ExamClient, call: Call, id: Id, cell: CheatingState, now: Time)
    requires Sound(w) && c in w.clients
    ensures Sound(Dispatch(env, w, c, call, id, cell, now)) <==> !Crosses(env, w, c, call)
  {
    if ReplyStatus(env, w, c, call, id) == 0 {
      var w' := Dispatch(env, w, c, call, id, cell, now);
      match call
      case Login(name, runId) => LoginKeepsSound(w, c, name, runId, cell, now);
      case TeacherLogin(name, _, runId) =>
        TeacherLoginKeepsSoundIff(w, c, TeacherNamed(w.db.teachers, name).value, runId);
      case Event(event, detail) =>
        EventKeepsSoundIff(env, w, c, event, detail, id, now);
        EventRows(env, w, c, event, detail, id, now);
        assert OnOwnRun(w.db, w.clients[c]);
        forall d | d in w'.clients ensures OnOwnRun(w'.db, w'.clients[d]) {
          assert OnOwnRun(w.db, w.clients[d]);
        }
      case Unknown =>
    }
  }

  lemma TeacherLoginKeepsSoundIff(w: World, c: ExamClient, t: Teacher, runId: Id)
    requires Sound(w) && c in w.clients
    ensures Sound(DoTeacherLogin(w, c, t, runId)) <==> OnOwnRun(w.db, w.clients[c].(runId := runId))
  {
    var w' := DoTeacherLogin(w, c, t, runId);
    assert w'.db == w.db && c in w'.clients;
    assert OnOwnRun(w.db, w'.clients[c]) == OnOwnRun(w.db, w.clients[c].(runId := runId));
    forall d | d in w'.clients && d != c ensures OnOwnRun(w'.db, w'.clients[d]) {
      assert OnOwnRun(w.db, w.clients[d]);
    }
  }

  lemma LoginSameRows(w: World, c: ExamClient, sid: Id, cell: CheatingState, now: Time)
    requires c in w.clients && sid in w.db.students
    ensures SameRows(w.db, DoLogin(w, c, sid, cell, now).db)
  {
  }

  lemma LoginKeepsSound(w: World, c: ExamClient, name: string, runId: Id, cell: CheatingState, now: Time)
    requires Sound(w) && c in w.clients && LoginStatus(w, c, name, runId) == 0
    ensures Sound(DoLogin(w, c, FindStudent(w.db, runId, name).value, cell, now))
  {
    var sid := FindStudent(w.db, runId, name).value;
    var w' := DoLogin(w, c, sid, cell, now);
    var saved := w.(db := w'.db);
    LoginSameRows(w, c, sid, cell, now);
    SameRowsKeepSound(w, saved);
    LoggedInOnOwnRun(w, c, sid, cell, now);
    ReplaceClientKeepsSound(saved, w', c);
  }

  lemma LoggedInOnOwnRun(w: World, c: ExamClient, sid: Id, cell: CheatingState, now: Time)
    requires c in w.clients && sid in w.db.students
    ensures
      var w' := DoLogin(w, c, sid, cell, now);
      w'.clients == w.clients[c := w'.clients[c]] && OnOwnRun(w'.db, w'.clients[c])
  {
  }

  lemma ReplaceClientKeepsSound(w: World, w': World, c: ExamClient)
    requires Sound(w) && w'.db == w.db && c in w'.clients
    requires w'.clients == w.clients[c := w'.clients[c]] && OnOwnRun(w.db, w'.clients[c])
    ensures Sound(w')
  {
    forall d | d in w'.clients ensures OnOwnRun(w'.db, w'.clients[d]) {
      assert d != c ==> OnOwnRun(w.db, w.clients[d]);
    }
  }

  lemma DeliverKeepsSoundIff(env: Env, w: World, c: ExamClient, raw: Raw, id: Id, cell: CheatingState, now: Time)
    requires Sound(w) && c in w.clients
    ensures Sound(Deliver(env, w, c, raw, id, cell, now)) <==>
            !(env.decode(raw).Some? && Crosses(env, w, c, env.decode(raw).value))
  {
    var decoded := env.decode(raw);
    if decoded.Some? {
      var w1 := CheckChain(env, w, c, raw, now);
      CheckChainSameRows(env, w, c, raw, now);
      CheckChainSameOwners(env, w, c, raw, now);
      SameRowsKeepSound(w, w1);
      CrossesSameRows(env, w, w1, c, decoded.value);
      DispatchKeepsSoundIff(env, w1, c, decoded.value, id, cell, now);
      var w2 := Dispatch(env, w1, c, decoded.value, id, cell, now);
      StartChainSameTables(env, w2, c, raw);
    }
  }

  lemma StartChainSameTables(env: Env, w: World, c: ExamClient, raw: Raw)
    ensures StartChain(env, w, c, raw).db == w.db && StartChain(env, w, c, raw).clients == w.clients
    ensures Sound(StartChain(env, w, c, raw)) == Sound(w)
  {
  }

  lemma CrossesSameRows(env: Env, w: World, w': World, c: ExamClient, call: Call)
    requires SameRows(w.db, w'.db) && w'.clients == w.clients
    ensures Crosses(env, w', c, call) == Crosses(env, w, c, call)
  {
  }

  // ---------------------------------------------------------------- steps

  /** Only the status and times of runs and the finished marks of connections and monitors moved. */
  ghost predicate Restatused(w: World, w': World) {
    && w'.db == w.db.(runs := w'.db.runs) && w'.db.runs.Keys == w.db.runs.Keys
    && (forall r :: r in w.db.runs ==> w'.db.runs[r].examId == w.db.runs[r].examId)
    && w'.clients.Keys == w.clients.Keys
    && (forall c :: c in w.clients ==>
          w'.clients[c].studentId == w.clients[c].studentId && w'.clients[c].runId == w.clients[c].runId)
  }

  lemma RestatusKeepsSound(w: World, w': World)
    requires Sound(w) && Restatused(w, w')
    ensures Sound(w')
  {
    ExamsStay(w.db, w'.db);
    forall c | c in w'.clients ensures OnOwnRun(w'.db, w'.clients[c]) {
      assert OnOwnRun(w.db, w.clients[c]);
    }
    forall row | row in w'.db.events ensures RowOwned(w'.db, row.studentId, row.runId) {
      assert RowOwned(w.db, row.studentId, row.runId);
    }
  }

  lemma ExpiryRestatuses(w: World)
    ensures Restatused(w, DoExpiry(w))
  {
  }

  lemma SetStatusRestatuses(w: World, runId: Id, status: Option<RunStatus>)
    ensures Restatused(w, DoSetStatus(w, runId, status))
  {
  }

  lemma ConnectKeepsSound(w: World, c: ExamClient)
    requires Sound(w)
    ensures Sound(PutClient(w, c, NEW_CLIENT))
  {
    var w' := PutClient(w, c, NEW_CLIENT);
    forall d | d in w'.clients ensures OnOwnRun(w'.db, w'.clients[d]) {
      if d != c { assert OnOwnRun(w.db, w.clients[d]); }
    }
  }

  lemma HeartbeatsSameRows(w: World)
    ensures SameRows(w.db, DoHeartbeats(w).db)
  {
  }

  lemma ClearSameRows(w: World, sid: Id)
    ensures SameRows(w.db, DoClear(w, sid).db)
  {
  }

  lemma CheckerKeepsSound(env: Env, w: World, a: Action)
    requires Sound(w)
    requires a.HeartbeatTick? || a.ExpiryTick? || a.SetStatusAction? || a.ClearFlagsAction?
    ensures Sound(Act(env, w, a))
  {
    if a.HeartbeatTick? {
      HeartbeatsSameRows(w);
      SameRowsKeepSound(w, DoHeartbeats(w));
    } else if a.ClearFlagsAction? {
      ClearSameRows(w, a.studentId);
      SameRowsKeepSound(w, DoClear(w, a.studentId));
    } else {
      EndingKeepsSound(env, w, a);
    }
  }

  lemma EndingKeepsSound(env: Env, w: World, a: Action)
    requires Sound(w) && EndingAction(a)
    ensures Sound(Act(env, w, a))
  {
    if a.ExpiryTick? {
      ExpiryRestatuses(w);
    } else {
      SetStatusRestatuses(w, a.runId, a.status);
    }
    RestatusKeepsSound(w, Act(env, w, a));
  }

  /** A step keeps the tables and the connections' runs sound exactly when it is not a crossing teacher login. */
  lemma NextKeepsSoundIff(env: Env, w: World, step: Step)
    requires Sound(w) && Legal(w, step)
    ensures Sound(Next(env, w, step)) <==> !CrossingStep(env, w, step)
  {
    var v := w.(now := step.now);
    SameRowsKeepSound(w, v);
    match step.action
    case Connect(c) => ConnectKeepsSound(v, c);
    case Disconnect(c) => SameRowsKeepSound(v, v.(clients := v.clients - {c}));
    case Message(c, raw, id, cell) =>
      DeliverKeepsSoundIff(env, v, c, raw, id, cell, v.now);
      if env.decode(raw).Some? {
        CrossesSameRows(env, w, v, c, env.decode(raw).value);
      }
    case _ =>
      if TableAction(step.action) {
        assert Legal(v, At(v.now, step.action));
        TableActionKeepsSound(env, v, step.action);
      } else {
        CheckerKeepsSound(env, v, step.action);
      }
  }

  /** Every state the run passes through is sound. */
  ghost predicate AlwaysSound(env: Env, w: World, steps: seq<Step>) {
    Sound(Exec(env, w, steps)) && (steps != [] ==> AlwaysSound(env, w, steps[..|steps| - 1]))
  }

  ghost predicate NeverCrosses(env: Env, w: World, steps: seq<Step>) {
    steps != [] ==>
      var n := |steps| - 1;
      NeverCrosses(env, w, steps[..n]) && !CrossingStep(env, Exec(env, w, steps[..n]), steps[n])
  }

  /** Over a whole run: tables and connections' runs stay sound exactly when no step of the run crosses. */
  lemma {:induction false} RunSoundIff(env: Env, w: World, steps: seq<Step>)
    requires Sound(w) && LegalRun(env, w, steps)
    ensures AlwaysSound(env, w, steps) <==> NeverCrosses(env, w, steps)
  {
    if steps == [] {
    } else {
      var n := |steps| - 1;
      RunSoundIff(env, w, steps[..n]);
      if AlwaysSound(env, w, steps[..n]) {
        NextKeepsSoundIff(env, Exec(env, w, steps[..n]), steps[n]);
      }
    }
  }

  /** In every state reached without a crossing login, every event, student, run and exam has its parent. */
  lemma ReachableSound(env: Env, steps: seq<Step>)
    requires LegalRun(env, START, steps) && NeverCrosses(env, START, steps)
    ensures Sound(Exec(env, START, steps))
  {
    RunSoundIff(env, START, steps);
  }

  // ---------------------------------------------------------------- the tables alone

  /** The step is an accepted event of a connection that is not on its student's run. */
  ghost predicate OffRun(env: Env, w: World, step: Step) {
    && step.action.Message? && step.action.c in w.clients && env.decode(step.action.raw).Some?
    && var call := env.decode(step.action.raw).value;
    && call.Event? && EventStatus(w, step.action.c, call.event, step.action.id) == 0
    && !OnOwnRun(w.db, w.clients[step.action.c])
  }

  lemma SameRowsKeepDbSound(db: Db, db': Db)
    requires DbSound(db) && SameRows(db, db')
    ensures DbSound(db')
  {
    ExamsStay(db, db');
    forall row | row in db'.events ensures RowOwned(db', row.studentId, row.runId) {
      assert RowOwned(db, row.studentId, row.runId);
    }
  }

  /** What a step that is not a message does to the tables does not depend on the connections. */
  lemma TablesIgnoreClients(env: Env, w: World, a: Action)
    requires !a.Message?
    ensures Act(env, w.(clients := map[]), a).db == Act(env, w, a).db
  {
  }

  lemma OtherKeepsDbSound(env: Env, w: World, step: Step)
    requires DbSound(w.db) && Legal(w, step) && !step.action.Message?
    ensures DbSound(Next(env, w, step).db)
  {
    var empty := w.(clients := map[]);
    TablesIgnoreClients(env, w.(now := step.now), step.action);
    NextKeepsSoundIff(env, empty, step);
  }

  lemma DispatchKeepsDbSoundIff(env: Env, w: World, c: ExamClient, call: Call, id: Id, cell: CheatingState, now: Time)
    requires DbSound(w.db) && c in w.clients
    ensures DbSound(Dispatch(env, w, c, call, id, cell, now).db) <==>
            !(call.Event? && EventStatus(w, c, call.event, id) == 0 && !OnOwnRun(w.db, w.clients[c]))
  {
    if ReplyStatus(env, w, c, call, id) == 0 {
      match call
      case Login(name, runId) =>
        LoginSameRows(w, c, FindStudent(w.db, runId, name).value, cell, now);
        SameRowsKeepDbSound(w.db, Dispatch(env, w, c, call, id, cell, now).db);
      case TeacherLogin(name, _, runId) =>
      case Event(event, detail) => EventKeepsSoundIff(env, w, c, event, detail, id, now);
      case Unknown =>
    }
  }

  lemma DeliverKeepsDbSoundIff(env: Env, w: World, c: ExamClient, raw: Raw, call: Call, id: Id, cell: CheatingState,
                               now: Time)
    requires DbSound(w.db) && c in w.clients && env.decode(raw) == Some(call)
    ensures DbSound(Deliver(env, w, c, raw, id, cell, now).db) <==>
            !(call.Event? && EventStatus(w, c, call.event, id) == 0 && !OnOwnRun(w.db, w.clients[c]))
  {
    var w1 := CheckChain(env, w, c, raw, now);
    CheckChainSameRows(env, w, c, raw, now);
    CheckChainSameOwners(env, w, c, raw, now);
    SameRowsKeepDbSound(w.db, w1.db);
    DispatchKeepsDbSoundIff(env, w1, c, call, id, cell, now);
    StartChainSameTables(env, Dispatch(env, w1, c, call, id, cell, now), c, raw);
  }

  lemma MessageKeepsDbSoundIff(env: Env, w: World, step: Step)
    requires DbSound(w.db) && step.action.Message? && step.action.c in w.clients && step.now == w.now
    ensures DbSound(Act(env, w, step.action).db) <==> !OffRun(env, w, step)
  {
    var c, raw := step.action.c, step.action.raw;
    if env.decode(raw).Some? {
      DeliverKeepsDbSoundIff(env, w, c, raw, env.decode(raw).value, step.action.id, step.action.cell, w.now);
    }
  }

  /** From sound tables, a step leaves the tables sound exactly when it is not an event off the student's run. */
  lemma NextKeepsDbSoundIff(env: Env, w: World, step: Step)
    requires DbSound(w.db) && Legal(w, step)
    ensures DbSound(Next(env, w, step).db) <==> !OffRun(env, w, step)
  {
    if step.action.Message? {
      MessageKeepsDbSoundIff(env, w.(now := step.now), step);
    } else {
      OtherKeepsDbSound(env, w, step);
    }
  }

  ghost predicate AlwaysDbSound(env: Env, w: World, steps: seq<Step>) {
    DbSound(Exec(env, w, steps).db) && (steps != [] ==> AlwaysDbSound(env, w, steps[..|steps| - 1]))
  }

  ghost predicate NeverOffRun(env: Env, w: World, steps: seq<Step>) {
    steps != [] ==>
      var n := |steps| - 1;
      NeverOffRun(env, w, steps[..n]) && !OffRun(env, Exec(env, w, steps[..n]), steps[n])
  }

  /** Over a whole run: the tables are sound all the way exactly when no event is accepted off its student's run. */
  lemma {:induction false} RunDbSoundIff(env: Env, w: World, steps: seq<Step>)
    requires DbSound(w.db) && LegalRun(env, w, steps)
    ensures AlwaysDbSound(env, w, steps) <==> NeverOffRun(env, w, steps)
  {
    if steps == [] {
    } else {
      var n := |steps| - 1;
      RunDbSoundIff(env, w, steps[..n]);
      if AlwaysDbSound(env, w, steps[..n]) {
        NextKeepsDbSoundIff(env, Exec(env, w, steps[..n]), steps[n]);
      }
    }
  }

  /** Without a crossing login no event is accepted off its student's run. */
  lemma {:induction false} NoCrossingNoOffRun(env: Env, w: World, steps: seq<Step>)
    requires Sound(w) && LegalRun(env, w, steps) && NeverCrosses(env, w, steps)
    ensures NeverOffRun(env, w, steps)
  {
    if steps == [] {
    } else {
      NoCrossingNoOffRun(env, w, steps[..|steps| - 1]);
      RunSoundIff(env, w, steps[..|steps| - 1]);
    }
  }

  /**
   Why the condition is needed: from any sound state, a student's connection that logs in as a teacher of another
   running run and then reports an event leaves an event row of a run that is not the student's.
   */
  lemma CrossingCorruptsEvents(env: Env, w: World, c: ExamClient, t: Teacher, runId: Id, event: string, detail: Detail,
                               id: Id, now: Time)
    requires Sound(w) && c in w.clients && w.clients[c].studentId != ""
    requires RunIs(w.db, runId, Running) && !RowOwned(w.db, w.clients[c].studentId, runId)
    requires EventStatus(DoTeacherLogin(w, c, t, runId), c, event, id) == 0
    ensures !EventsOwned(DoEvent(env, DoTeacherLogin(w, c, t, runId), c, event, detail, id, now).db)
  {
    var w1 := DoTeacherLogin(w, c, t, runId);
    EventRows(env, w1, c, event, detail, id, now);
    var row := EventRow(id, w.clients[c].studentId, runId, event, now);
    var w2 := DoEvent(env, w1, c, event, detail, id, now);
    assert w2.db.events[|w1.db.events|] == row;
    assert row in w2.db.events;
  }
}
