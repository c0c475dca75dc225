/** What each message does, read off the tables, the connections and the monitors. */
module Messages {
  import opened Basics
  import opened Chain
  import opened CheatingEngine
  import opened Database
  import opened Protocol
  import opened Ownership
  import opened Integrity
  import opened Finality
  import opened Isolation

  // ---------------------------------------------------------------- teachers

  /** The first teacher of the name is the `i`-th, and its hash takes the password. */
  ghost predicate Opens(env: Env, db: Db, call: Call, i: int) {
    && call.TeacherLogin? && call.name != "" && call.password != "" && call.runId != ""
    && 0 <= i < |db.teachers| && db.teachers[i].name == call.name
    && (forall j :: 0 <= j < i ==> db.teachers[j].name != call.name)
    && env.verify(db.teachers[i].passwordHash, call.password)
  }

  /** The connection's fields after a teacher login that the tables grant. */
  function AsTeacher(v: ClientView, t: Teacher, runId: Id): ClientView {
    v.(role := TeacherRole, teacherId := t.id, runId := runId, name := t.name)
  }

  lemma {:induction false} FirstOfName(ts: seq<Teacher>, name: string, i: nat)
    requires i < |ts| && ts[i].name == name && forall j :: 0 <= j < i ==> ts[j].name != name
    ensures TeacherNamed(ts, name) == Some(ts[i])
  {
    if i == 0 {
    } else {
      FirstOfName(ts[1..], name, i - 1);
    }
  }

  /** The replies to a teacher login: 0 for a known name with its password, -1 for a missing field, else 1. */
  lemma TeacherReplies(env: Env, w: World, name: string, password: string, runId: Id)
    ensures
      var status := TeacherLoginStatus(env, w, name, password, runId);
      && (status == -1 <==> name == "" || password == "" || runId == "")
      && (status == 0 <==> exists i :: Opens(env, w.db, TeacherLogin(name, password, runId), i))
      && (status == -1 || status == 0 || status == 1)
  {
    var call := TeacherLogin(name, password, runId);
    if i :| Opens(env, w.db, call, i) {
      FirstOfName(w.db.teachers, name, i);
    }
    var found := TeacherNamed(w.db.teachers, name);
    if TeacherLoginStatus(env, w, name, password, runId) == 0 {
      var i :| 0 <= i < |w.db.teachers| && w.db.teachers[i] == found.value && w.db.teachers[i].name == name &&
               forall j :: 0 <= j < i ==> w.db.teachers[j].name != name;
      assert Opens(env, w.db, call, i);
    }
  }

  /** What a message does, apart from the chain check before it and the chain start after it. */
  lemma MessageParts(env: Env, w: World, step: Step, call: Call)
    requires Legal(w, step) && step.action.Message? && env.decode(step.action.raw) == Some(call)
    ensures
      var v, c := w.(now := step.now), step.action.c;
      var w1 := CheckChain(env, v, c, step.action.raw, step.now);
      var w2 := Dispatch(env, w1, c, call, step.action.id, step.action.cell, step.now);
      && Next(env, w, step) == (if w.clients[c].cheating == null then StartChain(env, w2, c, step.action.raw) else w2)
      && SameRows(w.db, w1.db) && w1.clients == w.clients && w1.states == w.states
      && Next(env, w, step).clients == w2.clients && Next(env, w, step).db == w2.db
  {
    var v, c := w.(now := step.now), step.action.c;
    var w1 := CheckChain(env, v, c, step.action.raw, step.now);
    CheckChainSameRows(env, v, c, step.action.raw, step.now);
    CheckChainSameOwners(env, v, c, step.action.raw, step.now);
    StartChainSameTables(env, Dispatch(env, w1, c, call, step.action.id, step.action.cell, step.now), c,
                         step.action.raw);
  }

  ghost predicate Granted(env: Env, db: Db, call: Call) {
    exists i :: Opens(env, db, call, i)
  }

  /** What a call does to the connections, when it is not an event. */
  lemma TeacherCall(env: Env, w: World, c: ExamClient, call: Call, id: Id, cell: CheatingState, now: Time)
    requires c in w.clients && call.TeacherLogin?
    ensures
      var w' := Dispatch(env, w, c, call, id, cell, now);
      && (!Granted(env, w.db, call) ==> w'.clients == w.clients)
      && forall i :: Opens(env, w.db, call, i) ==>
           w'.clients == w.clients[c := AsTeacher(w.clients[c], w.db.teachers[i], call.runId)]
  {
    TeacherReplies(env, w, call.name, call.password, call.runId);
    forall i | Opens(env, w.db, call, i) ensures TeacherNamed(w.db.teachers, call.name) == Some(w.db.teachers[i]) {
      FirstOfName(w.db.teachers, call.name, i);
    }
  }

  /** Any other call leaves the role of the connection alone or makes it a student's. */
  lemma OtherCallKeepsRole(env: Env, w: World, c: ExamClient, call: Call, id: Id, cell: CheatingState, now: Time)
    requires c in w.clients && !call.TeacherLogin?
    ensures
      var w' := Dispatch(env, w, c, call, id, cell, now);
      c in w'.clients && (w'.clients[c].role == w.clients[c].role || w'.clients[c].role == StudentRole)
  {
    if call.Event? {
      EventRows(env, w, c, call.event, call.detail, id, now);
    }
  }

  /**
   Over any message, a connection becomes a teacher's exactly when the message is a teacher login with all fields, the
   first teacher of that name exists, and its hash takes the password.  It then has that teacher's id and name and the
   requested run, and keeps everything else; a teacher login that is not granted changes no connection.
   */
  lemma TeacherLoginNeedsPassword(env: Env, w: World, step: Step)
    requires Legal(w, step) && step.action.Message?
    ensures
      var c, w', call := step.action.c, Next(env, w, step), env.decode(step.action.raw);
      && c in w'.clients
      && (w.clients[c].role != TeacherRole ==>
            (w'.clients[c].role == TeacherRole <==> call.Some? && Granted(env, w.db, call.value)))
      && (forall i :: call.Some? && Opens(env, w.db, call.value, i) ==>
            w'.clients == w.clients[c := AsTeacher(w.clients[c], w.db.teachers[i], call.value.runId)])
      && (call.Some? && call.value.TeacherLogin? && !Granted(env, w.db, call.value) ==> w'.clients == w.clients)
  {
    if env.decode(step.action.raw).Some? {
      var c, call := step.action.c, env.decode(step.action.raw).value;
      var w1 := CheckChain(env, w.(now := step.now), c, step.action.raw, step.now);
      MessageParts(env, w, step, call);
      SameTeachers(env, w.db, w1.db, call);
      if call.TeacherLogin? {
        TeacherCall(env, w1, c, call, step.action.id, step.action.cell, step.now);
      } else {
        OtherCallKeepsRole(env, w1, c, call, step.action.id, step.action.cell, step.now);
      }
    }
  }

  lemma SameTeachers(env: Env, db: Db, db': Db, call: Call)
    requires SameRows(db, db')
    ensures forall i :: Opens(env, db', call, i) <==> Opens(env, db, call, i)
    ensures Granted(env, db', call) <==> Granted(env, db, call)
  {
    forall i ensures Opens(env, db', call, i) <==> Opens(env, db, call, i) {
    }
  }

  // ---------------------------------------------------------------- students

  predicate Registered(db: Db, runId: Id, name: string, sid: Id) {
    sid in db.students && db.students[sid].runId == runId && db.students[sid].name == name
  }

  predicate HasStatus(db: Db, runId: Id, status: RunStatus) {
    runId in db.runs && db.runs[runId].status == status
  }

  ghost predicate SaidFinished(db: Db, sid: Id) {
    exists row :: row in db.events && row.studentId == sid && row.event == "student_finished"
  }

  ghost predicate OnAnother(w: World, c: ExamClient, sid: Id) {
    exists d :: d in w.clients && d != c && w.clients[d].studentId == sid
  }

  /** Nothing stands against a login of this student on this connection. */
  ghost predicate MayLogIn(w: World, c: ExamClient, runId: Id, sid: Id) {
    && !HasStatus(w.db, runId, Finished) && !HasStatus(w.db, runId, Pending)
    && !SaidFinished(w.db, sid) && !OnAnother(w, c, sid)
  }

  /** The replies to a login, in the order of the refusals. */
  lemma StudentReplies(w: World, c: ExamClient, name: string, runId: Id)
    requires UniqueNames(w.db)
    ensures
      var status := LoginStatus(w, c, name, runId);
      && (status == -1 <==> name == "" || runId == "")
      && (status == 1 <==> name != "" && runId != "" && forall sid :: !Registered(w.db, runId, name, sid))
      && (forall sid :: name != "" && runId != "" && Registered(w.db, runId, name, sid) ==>
            && FindStudent(w.db, runId, name) == Some(sid)
            && (status == 3 <==> HasStatus(w.db, runId, Finished))
            && (status == 4 <==> HasStatus(w.db, runId, Pending))
            && (status == 5 ==> SaidFinished(w.db, sid))
            && (status == 2 ==> !SaidFinished(w.db, sid) && OnAnother(w, c, sid))
            && (status == 0 <==> MayLogIn(w, c, runId, sid)))
  {
    assert forall sid :: Registered(w.db, runId, name, sid) <==> Matches(w.db, sid, runId, name);
    forall sid ensures HasFinished(w.db.events, sid) <==> SaidFinished(w.db, sid) {
      HasFinishedRow(w.db.events, sid);
    }
  }

  /** The connection's fields after an accepted login. */
  function AsStudent(v: ClientView, sid: Id, runId: Id, name: string, s: CheatingState): ClientView {
    v.(role := StudentRole, studentId := sid, runId := runId, name := name, cheating := s)
  }

  /** The monitor after a first login of a connection: new or as stored, connected now, and linked to the login. */
  function LoggedIn(w: World, sid: Id, runId: Id, name: string, now: Time, link: Link): Monitor
    requires sid in w.states ==> w.states[sid] in w.monitors
  {
    if sid in w.states
    then w.monitors[w.states[sid]].(studentName := name, lastHeartbeat := now, connected := true, link := link)
    else Monitor(sid, runId, name, [], now, true, false, 0, link)
  }

  /** Unless something stands against it, the connection is the student's afterwards; otherwise nothing changes. */
  ghost predicate LoginOutcome(w: World, w': World, c: ExamClient, sid: Id, runId: Id, name: string, now: Time,
                               s: CheatingState, link: Link)
    requires c in w.clients && (sid in w.states ==> w.states[sid] in w.monitors)
  {
    if !MayLogIn(w, c, runId, sid) then w' == w.(now := now)
    else
      && SameRows(w.db, w'.db)
      && w'.clients == w.clients[c := AsStudent(w.clients[c], sid, runId, name, s)]
      && w'.states == w.states[sid := s]
      && w'.monitors == w.monitors[s := LoggedIn(w, sid, runId, name, now, link)]
  }

  /**
   A login on a new connection: unless something stands against it, the connection is the student's, with the stored
   monitor or a new one, connected at this time and linked to the login message; otherwise nothing changes.
   */
  lemma FirstLogin(env: Env, w: World, step: Step, sid: Id)
    requires Owned(w) && Legal(w, step) && step.action.Message? && w.clients[step.action.c].cheating == null
    requires env.decode(step.action.raw).Some? && env.decode(step.action.raw).value.Login?
    requires
      var call := env.decode(step.action.raw).value;
      call.name != "" && call.runId != "" && Registered(w.db, call.runId, call.name, sid)
    ensures
      var call := env.decode(step.action.raw).value;
      LoginOutcome(w, Next(env, w, step), step.action.c, sid, call.runId, call.name, step.now,
                   if sid in w.states then w.states[sid] else step.action.cell,
                   Link(Inc64(env.wire.header(step.action.raw).number), env.wire.hash(step.action.raw)))
  {
    var c, call := step.action.c, env.decode(step.action.raw).value;
    var v, s := w.(now := step.now), if sid in w.states then w.states[sid] else step.action.cell;
    var w2 := Dispatch(env, v, c, call, step.action.id, step.action.cell, step.now);
    FirstMessage(env, w, step, call);
    FirstLoginCall(env, v, c, call, step.action.id, step.action.cell, step.now, sid);
    LoginThenChain(env, v, w2, c, sid, call.runId, call.name, step.now, s, step.action.raw);
    SameMayLogIn(w, step.now, c, call.runId, sid);
  }

  /** A login on a connection that has a monitor: after the check of that monitor, the same, with the chain restarted. */
  lemma LaterLogin(env: Env, w: World, step: Step, sid: Id)
    requires Owned(w) && Legal(w, step) && step.action.Message? && w.clients[step.action.c].cheating != null
    requires env.decode(step.action.raw).Some? && env.decode(step.action.raw).value.Login?
    requires
      var call := env.decode(step.action.raw).value;
      call.name != "" && call.runId != "" && Registered(w.db, call.runId, call.name, sid)
    ensures
      var c, call := step.action.c, env.decode(step.action.raw).value;
      var w1 := CheckChain(env, w.(now := step.now), c, step.action.raw, step.now);
      && c in w1.clients && (sid in w1.states ==> w1.states[sid] in w1.monitors)
      && (MayLogIn(w1, c, call.runId, sid) <==> MayLogIn(w, c, call.runId, sid))
      && LoginOutcome(w1, Next(env, w, step), c, sid, call.runId, call.name, step.now,
                      if sid in w1.states then w1.states[sid] else step.action.cell, Link(0, ""))
  {
    var c, call := step.action.c, env.decode(step.action.raw).value;
    var v := w.(now := step.now);
    var w1 := CheckChain(env, v, c, step.action.raw, step.now);
    MessageParts(env, w, step, call);
    SameOwnersKeepOwned(w, v);
    CheckChainSameOwners(env, v, c, step.action.raw, step.now);
    SameOwnersKeepOwned(v, w1);
    SameTablesMayLogIn(w, w1, c, call.runId, sid);
    FirstLoginCall(env, w1, c, call, step.action.id, step.action.cell, step.now, sid);
  }

  lemma SameTablesMayLogIn(w: World, w': World, c: ExamClient, runId: Id, sid: Id)
    requires SameRows(w.db, w'.db) && w'.clients == w.clients
    ensures MayLogIn(w', c, runId, sid) <==> MayLogIn(w, c, runId, sid)
  {
  }

  lemma LoginThenChain(env: Env, w: World, w': World, c: ExamClient, sid: Id, runId: Id, name: string, now: Time,
                       s: CheatingState, raw: Raw)
    requires c in w.clients && (sid in w.states ==> w.states[sid] in w.monitors) && w.clients[c].cheating == null
    requires w.now == now && LoginOutcome(w, w', c, sid, runId, name, now, s, Link(0, ""))
    ensures LoginOutcome(w, StartChain(env, w', c, raw), c, sid, runId, name, now, s,
                         Link(Inc64(env.wire.header(raw).number), env.wire.hash(raw)))
  {
    if MayLogIn(w, c, runId, sid) {
      ChainStarts(env, w', c, raw);
    }
  }

  lemma SameMayLogIn(w: World, now: Time, c: ExamClient, runId: Id, sid: Id)
    ensures MayLogIn(w.(now := now), c, runId, sid) <==> MayLogIn(w, c, runId, sid)
  {
  }

  /** The first message of a connection is not checked, and becomes the start of the chain of what it attaches. */
  lemma FirstMessage(env: Env, w: World, step: Step, call: Call)
    requires Legal(w, step) && step.action.Message? && w.clients[step.action.c].cheating == null
    requires env.decode(step.action.raw) == Some(call)
    ensures
      var v, c := w.(now := step.now), step.action.c;
      Next(env, w, step) ==
      StartChain(env, Dispatch(env, v, c, call, step.action.id, step.action.cell, step.now), c, step.action.raw)
  {
    assert CheckChain(env, w.(now := step.now), step.action.c, step.action.raw, step.now) == w.(now := step.now);
  }

  lemma ChainStarts(env: Env, w: World, c: ExamClient, raw: Raw)
    requires Watched(w, c)
    ensures
      var s, link := w.clients[c].cheating, Link(Inc64(env.wire.header(raw).number), env.wire.hash(raw));
      StartChain(env, w, c, raw) == w.(monitors := w.monitors[s := w.monitors[s].(link := link)])
  {
  }

  /** The call of a first login, before the message becomes the start of the chain. */
  lemma FirstLoginCall(env: Env, w: World, c: ExamClient, call: Call, id: Id, cell: CheatingState, now: Time, sid: Id)
    requires MapOwned(w) && UniqueNames(w.db) && c in w.clients && call.Login? && (sid !in w.states ==> cell !in w.monitors)
    requires call.name != "" && call.runId != "" && Registered(w.db, call.runId, call.name, sid)
    requires w.now == now
    ensures LoginOutcome(w, Dispatch(env, w, c, call, id, cell, now), c, sid, call.runId, call.name, now,
                         if sid in w.states then w.states[sid] else cell, Link(0, ""))
  {
    StudentReplies(w, c, call.name, call.runId);
    if MayLogIn(w, c, call.runId, sid) {
      LoginSameRows(w, c, sid, cell, now);
    }
  }

  // ---------------------------------------------------------------- events

  /** The server takes this event from a connection with these fields. */
  ghost predicate Takes(db: Db, v: ClientView, event: string, id: Id) {
    && v.studentId != "" && event != "" && (v.finished ==> event == "student_finished")
    && HasStatus(db, v.runId, Running)
    && forall row :: row in db.events ==> row.id != id
  }

  lemma EventReplies(w: World, c: ExamClient, event: string, id: Id)
    requires c in w.clients
    ensures EventStatus(w, c, event, id) == if Takes(w.db, w.clients[c], event, id) then 0 else -1
  {
    if EventIdTaken(w.db.events, id) {
      var i :| 0 <= i < |w.db.events| && w.db.events[i].id == id;
      assert w.db.events[i] in w.db.events;
    }
  }

  /**
   An event message: it is taken exactly when the connection has a student, the event has a name, a finished connection
   finishes again, the connection's run is running and the identifier is new.  Then its row is appended, a finish marks
   connection and monitor, and the monitor takes the event after the chain check; otherwise only the check is made.
   */
  lemma EventMessage(env: Env, w: World, step: Step)
    requires Owned(w) && Legal(w, step) && step.action.Message?
    requires env.decode(step.action.raw).Some? && env.decode(step.action.raw).value.Event?
    ensures
      var c, w', call := step.action.c, Next(env, w, step), env.decode(step.action.raw).value;
      var v, taken := w.clients[c], Takes(w.db, w.clients[c], call.event, step.action.id);
      var finish := taken && call.event == "student_finished";
      && w'.db.events == w.db.events +
           (if taken then [EventRow(step.action.id, v.studentId, v.runId, call.event, step.now)] else [])
      && w'.clients == w.clients[c := v.(finished := v.finished || finish)]
      && w'.states == w.states
      && (v.studentId != "" ==>
            && Watched(w, c) && Watched(w', c)
            && var m := Verified(MonitorOf(w, c), env.wire, step.action.raw, step.now);
            if taken
            then EventEffect(m.(finished := m.finished || finish), MonitorOf(w', c),
                             env.lower, call.event, call.detail, step.now)
            else MonitorOf(w', c) == m)
  {
    var c, call := step.action.c, env.decode(step.action.raw).value;
    var w1 := CheckChain(env, w.(now := step.now), c, step.action.raw, step.now);
    EventParts(env, w, step, call);
    SameTakes(w.db, w1.db, w.clients[c], call.event, step.action.id);
    EventCall(env, w1, c, call, step.action.id, step.action.cell, step.now);
    if w.clients[c].studentId != "" {
      EventReachesMonitor(env, w1, c, call, step.action.id, step.action.cell, step.now);
    }
  }

  lemma SameTakes(db: Db, db': Db, v: ClientView, event: string, id: Id)
    requires SameRows(db, db')
    ensures Takes(db', v, event, id) <==> Takes(db, v, event, id)
  {
  }

  /** An event starts no chain, and comes after the check of its connection's monitor. */
  lemma EventParts(env: Env, w: World, step: Step, call: Call)
    requires Owned(w) && Legal(w, step) && step.action.Message?
    requires env.decode(step.action.raw) == Some(call) && call.Event?
    ensures
      var c := step.action.c;
      var w1 := CheckChain(env, w.(now := step.now), c, step.action.raw, step.now);
      && Next(env, w, step) == Dispatch(env, w1, c, call, step.action.id, step.action.cell, step.now)
      && SameRows(w.db, w1.db) && w1.clients == w.clients && w1.states == w.states
      && (w.clients[c].studentId != "" ==>
            && Watched(w, c) && Watched(w1, c)
            && MonitorOf(w1, c) == Verified(MonitorOf(w, c), env.wire, step.action.raw, step.now))
  {
    var c := step.action.c;
    var w1 := CheckChain(env, w.(now := step.now), c, step.action.raw, step.now);
    assert ClientOwned(w, w.clients[c]);
    MessageParts(env, w, step, call);
    if w.clients[c].cheating == null {
      EventReplies(w1, c, call.event, step.action.id);
      assert Dispatch(env, w1, c, call, step.action.id, step.action.cell, step.now) == w1;
    }
  }

  lemma EventCall(env: Env, w: World, c: ExamClient, call: Call, id: Id, cell: CheatingState, now: Time)
    requires c in w.clients && call.Event?
    ensures
      var w', v := Dispatch(env, w, c, call, id, cell, now), w.clients[c];
      var taken := Takes(w.db, v, call.event, id);
      var finish := taken && call.event == "student_finished";
      && w'.db.events == w.db.events + (if taken then [EventRow(id, v.studentId, v.runId, call.event, now)] else [])
      && w'.clients == w.clients[c := v.(finished := v.finished || finish)] && w'.states == w.states
  {
    EventReplies(w, c, call.event, id);
    if Takes(w.db, w.clients[c], call.event, id) {
      EventRows(env, w, c, call.event, call.detail, id, now);
    } else {
      assert w.db.events + [] == w.db.events;
      assert w.clients[c := w.clients[c]] == w.clients;
    }
  }

  lemma EventReachesMonitor(env: Env, w: World, c: ExamClient, call: Call, id: Id, cell: CheatingState, now: Time)
    requires Watched(w, c) && call.Event?
    ensures
      var w', m := Dispatch(env, w, c, call, id, cell, now), MonitorOf(w, c);
      var taken := Takes(w.db, w.clients[c], call.event, id);
      var finish := taken && call.event == "student_finished";
      && Watched(w', c)
      && if taken
         then EventEffect(m.(finished := m.finished || finish), MonitorOf(w', c),
                          env.lower, call.event, call.detail, now)
         else MonitorOf(w', c) == m
  {
    EventReplies(w, c, call.event, id);
    var m := MonitorOf(w, c);
    UpdatedEffect(m.(finished := m.finished || call.event == "student_finished"),
                  env.lower, call.event, call.detail, now);
  }
}
