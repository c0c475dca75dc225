/** Which connection, student and monitor belong together, in every reachable state. */
module Ownership {
  import opened Basics
  import opened Chain
  import opened CheatingEngine
  import opened Database
  import opened Protocol

  /** The map of monitors is one-to-one and names each monitor's own student. */
  ghost predicate MapOwned(w: World) {
    && (forall k :: k in w.states ==>
          k != "" && w.states[k] in w.monitors && w.monitors[w.states[k]].studentId == k)
    && (forall s :: s in w.monitors ==>
          w.monitors[s].studentId in w.states && w.states[w.monitors[s].studentId] == s)
  }

  /** A connection has a monitor when it has a student, and it is the one stored under that student. */
  ghost predicate ClientOwned(w: World, v: ClientView) {
    && (v.studentId == "" <==> v.cheating == null)
    && (v.studentId != "" ==> v.studentId in w.states && w.states[v.studentId] == v.cheating)
  }

  /** No two connections are logged in as the same student. */
  ghost predicate Exclusive(w: World) {
    forall c, d :: c in w.clients && d in w.clients && c != d && w.clients[c].studentId == w.clients[d].studentId
      ==> w.clients[c].studentId == ""
  }

  ghost predicate Owned(w: World) {
    && MapOwned(w)
    && (forall c :: c in w.clients ==> ClientOwned(w, w.clients[c]))
    && Exclusive(w)
    && "" !in w.db.students && UniqueNames(w.db)
  }

  /** Nothing but logins and connections moved, and no monitor changed its student. */
  ghost predicate SameOwners(w: World, w': World) {
    && w'.states == w.states
    && w'.clients.Keys == w.clients.Keys
    && (forall c :: c in w.clients ==>
          w'.clients[c].studentId == w.clients[c].studentId && w'.clients[c].cheating == w.clients[c].cheating)
    && w'.monitors.Keys == w.monitors.Keys
    && (forall s :: s in w.monitors ==> w'.monitors[s].studentId == w.monitors[s].studentId)
  }

  lemma SameOwnersKeepOwned(w: World, w': World)
    requires Owned(w) && SameOwners(w, w') && "" !in w'.db.students && UniqueNames(w'.db)
    ensures Owned(w')
  {
    forall c | c in w'.clients ensures ClientOwned(w', w'.clients[c]) {
      assert ClientOwned(w, w.clients[c]);
    }
  }

  lemma RecordSameOwners(w: World, s: CheatingState, before: Monitor, after: Monitor)
    requires s in w.monitors && after.studentId == w.monitors[s].studentId
    ensures SameOwners(w, Record(w, s, before, after))
    ensures StudentsKept(w.db, Record(w, s, before, after).db)
    ensures Record(w, s, before, after).clients == w.clients
  {
  }

  lemma CheckChainSameOwners(env: Env, w: World, c: ExamClient, raw: Raw, now: Time)
    ensures SameOwners(w, CheckChain(env, w, c, raw, now))
    ensures StudentsKept(w.db, CheckChain(env, w, c, raw, now).db)
    ensures CheckChain(env, w, c, raw, now).clients == w.clients
  {
  }

  lemma LoginKeepsOwned(w: World, c: ExamClient, name: string, runId: Id, cell: CheatingState, now: Time)
    requires Owned(w) && c in w.clients
    requires LoginStatus(w, c, name, runId) == 0
    requires FindStudent(w.db, runId, name).value in w.states || cell !in w.monitors
    ensures Owned(DoLogin(w, c, FindStudent(w.db, runId, name).value, cell, now))
  {
    var sid := FindStudent(w.db, runId, name).value;
    var w' := DoLogin(w, c, sid, cell, now);
    assert sid != "";
    assert forall d :: d in w.clients && d != c ==> w.clients[d].studentId != sid;
    forall d | d in w'.clients ensures ClientOwned(w', w'.clients[d]) {
      assert ClientOwned(w, w.clients[d]);
    }
    assert MapOwned(w') by {
      assert MapOwned(w);
    }
  }

  lemma DeliverKeepsOwned(env: Env, w: World, c: ExamClient, raw: Raw, id: Id, cell: CheatingState, now: Time)
    requires Owned(w) && c in w.clients && cell !in w.monitors
    ensures Owned(Deliver(env, w, c, raw, id, cell, now))
  {
    var decoded := env.decode(raw);
    if decoded.Some? {
      var w1 := CheckChain(env, w, c, raw, now);
      CheckChainSameOwners(env, w, c, raw, now);
      SameOwnersKeepOwned(w, w1);
      var w2 := Dispatch(env, w1, c, decoded.value, id, cell, now);
      DispatchKeepsOwned(env, w1, c, decoded.value, id, cell, now);
      var w3 := StartChain(env, w2, c, raw);
      assert SameOwners(w2, w3);
      SameOwnersKeepOwned(w2, w3);
    }
  }

  lemma DispatchKeepsOwned(env: Env, w: World, c: ExamClient, call: Call, id: Id, cell: CheatingState, now: Time)
    requires Owned(w) && c in w.clients && cell !in w.monitors
    ensures Owned(Dispatch(env, w, c, call, id, cell, now))
  {
    if ReplyStatus(env, w, c, call, id) == 0 {
      var w' := Dispatch(env, w, c, call, id, cell, now);
      match call
      case Login(name, runId) => LoginKeepsOwned(w, c, name, runId, cell, now);
      case TeacherLogin(name, _, runId) =>
        SameOwnersKeepOwned(w, w');
      case Event(event, detail) =>
        EventSameOwners(env, w, c, event, detail, id, now);
        SameOwnersKeepOwned(w, w');
      case Unknown =>
    }
  }

  lemma SameOwnersCompose(w: World, mid: World, w': World)
    requires SameOwners(w, mid) && SameOwners(mid, w')
    requires StudentsKept(w.db, mid.db) && StudentsKept(mid.db, w'.db)
    ensures SameOwners(w, w') && StudentsKept(w.db, w'.db)
  {
  }

  lemma EventSameOwners(env: Env, w: World, c: ExamClient, event: string, detail: Detail, id: Id, now: Time)
    requires c in w.clients
    ensures SameOwners(w, DoEvent(env, w, c, event, detail, id, now))
    ensures StudentsKept(w.db, DoEvent(env, w, c, event, detail, id, now).db)
  {
    var v, done := w.clients[c], event == STUDENT_FINISHED;
    var row := EventRow(id, v.studentId, v.runId, event, now);
    var w1 := PutClient(w.(db := w.db.(events := w.db.events + [row])), c, v.(finished := v.finished || done));
    assert SameOwners(w, w1) && StudentsKept(w.db, w1.db);
    if Watched(w1, c) {
      var m := MonitorOf(w1, c);
      var m' := Updated(m.(finished := m.finished || done), env.lower, event, detail, now);
      RecordSameOwners(w1, v.cheating, m, m');
      SameOwnersCompose(w, w1, Record(w1, v.cheating, m, m'));
    }
  }

  lemma NotifySameOwners(w: World, rs: set<Id>)
    ensures SameOwners(w, NotifyEnded(w, rs))
  {
  }

  lemma HeartbeatsSameOwners(w: World)
    ensures SameOwners(w, DoHeartbeats(w)) && StudentsKept(w.db, DoHeartbeats(w).db)
  {
  }

  lemma ClearSameOwners(w: World, sid: Id)
    ensures SameOwners(w, DoClear(w, sid)) && StudentsKept(w.db, DoClear(w, sid).db)
  {
  }

  predicate ConnectionAction(a: Action) {
    a.Connect? || a.Disconnect? || a.Message?
  }

  predicate TableAction(a: Action) {
    || a.RegisterTeacherAction? || a.CreateExamAction? || a.UpdateExamAction? || a.DeleteExamAction?
    || a.CreateRunAction? || a.DeleteRunAction? || a.RegisterStudentAction?
  }

  /** A table action touches the tables only, and adds at most the student it registers. */
  lemma TableActionFrame(env: Env, w: World, a: Action)
    requires TableAction(a)
    ensures Act(env, w, a) == w.(db := Act(env, w, a).db)
    ensures forall s :: s in Act(env, w, a).db.students ==>
      || (s in w.db.students && Act(env, w, a).db.students[s] == w.db.students[s])
      || (a.RegisterStudentAction? && s == a.id && s !in w.db.students && Act(env, w, a).db.students[s].stats == None)
  {
  }

  lemma OtherActionSameOwners(env: Env, w: World, a: Action)
    requires !ConnectionAction(a)
    ensures SameOwners(w, Act(env, w, a))
    ensures StudentsKept(w.db, Act(env, w, a).db) || a.RegisterStudentAction?
  {
    if TableAction(a) {
      TableActionFrame(env, w, a);
    } else if a.HeartbeatTick? {
      HeartbeatsSameOwners(w);
    } else if a.ClearFlagsAction? {
      ClearSameOwners(w, a.studentId);
    } else if a.ExpiryTick? {
      NotifySameOwners(w.(db := CloseRuns(w.db, ExpiredRuns(w.db, w.now), w.now)), ExpiredRuns(w.db, w.now));
    } else {
      NotifySameOwners(w.(db := SetStatus(w.db, a.runId, a.status, w.now).0), {a.runId});
    }
  }

  /** The two actions that may end runs. */
  predicate EndingAction(a: Action) {
    a.ExpiryTick? || a.SetStatusAction?
  }

  lemma EndingActionMonitors(env: Env, w: World, a: Action)
    requires EndingAction(a)
    ensures
      var w' := Act(env, w, a);
      && w'.states == w.states && w'.monitors.Keys == w.monitors.Keys
      && forall s :: s in w.monitors ==>
           && w'.monitors[s] == w.monitors[s].(finished := w'.monitors[s].finished)
           && (w.monitors[s].finished ==> w'.monitors[s].finished)
  {
  }

  /** Apart from messages, heartbeat checks and cleared records, a step at most marks monitors as finished. */
  lemma QuietMonitors(env: Env, w: World, a: Action)
    requires !a.Message? && !a.HeartbeatTick? && !a.ClearFlagsAction?
    ensures
      var w' := Act(env, w, a);
      && w'.states == w.states && w'.monitors.Keys == w.monitors.Keys
      && forall s :: s in w.monitors ==>
           && w'.monitors[s] == w.monitors[s].(finished := w'.monitors[s].finished)
           && (w.monitors[s].finished ==> w'.monitors[s].finished)
  {
    if TableAction(a) {
      TableActionFrame(env, w, a);
    } else if EndingAction(a) {
      EndingActionMonitors(env, w, a);
    }
  }

  lemma ConnectKeepsOwned(w: World, c: ExamClient)
    requires Owned(w) && c !in w.clients
    ensures Owned(PutClient(w, c, NEW_CLIENT))
  {
    var w' := PutClient(w, c, NEW_CLIENT);
    forall d | d in w'.clients ensures ClientOwned(w', w'.clients[d]) {
      if d != c { assert ClientOwned(w, w.clients[d]); }
    }
  }

  lemma DisconnectKeepsOwned(w: World, c: ExamClient)
    requires Owned(w)
    ensures Owned(w.(clients := w.clients - {c}))
  {
    var w' := w.(clients := w.clients - {c});
    forall d | d in w'.clients ensures ClientOwned(w', w'.clients[d]) {
      assert ClientOwned(w, w.clients[d]);
    }
  }

  /** Every step keeps the ownership. */
  lemma NextKeepsOwned(env: Env, w: World, step: Step)
    requires Owned(w) && Legal(w, step)
    ensures Owned(Next(env, w, step))
  {
    var v := w.(now := step.now);
    assert Owned(v) by { SameOwnersKeepOwned(w, v); }
    match step.action
    case Connect(c) => ConnectKeepsOwned(v, c);
    case Disconnect(c) => DisconnectKeepsOwned(v, c);
    case Message(c, raw, id, cell) => DeliverKeepsOwned(env, v, c, raw, id, cell, v.now);
    case RegisterStudentAction(id, runId, name) =>
      OtherActionSameOwners(env, v, step.action);
      RegistrationKeepsUnique(v.db, id, runId, name);
      SameOwnersKeepOwned(v, Next(env, w, step));
    case _ =>
      OtherActionSameOwners(env, v, step.action);
      SameOwnersKeepOwned(v, Next(env, w, step));
  }

  lemma RegistrationKeepsUnique(db: Db, id: Id, runId: Id, name: string)
    requires UniqueNames(db) && "" !in db.students && id != ""
    ensures
      var db' := RegisterStudent(db, id, runId, name).0;
      UniqueNames(db') && "" !in db'.students
  {
    assert forall s :: s in db.students ==> Matches(db, s, db.students[s].runId, db.students[s].name);
  }

  lemma {:induction false} ExecKeepsOwned(env: Env, w: World, steps: seq<Step>)
    requires Owned(w) && LegalRun(env, w, steps)
    ensures Owned(Exec(env, w, steps))
  {
    if steps == [] {
    } else {
      var n := |steps| - 1;
      ExecKeepsOwned(env, w, steps[..n]);
      NextKeepsOwned(env, Exec(env, w, steps[..n]), steps[n]);
    }
  }

  /** In every state the server can reach, monitors, students and connections belong together one to one. */
  lemma ReachableOwned(env: Env, steps: seq<Step>)
    requires LegalRun(env, START, steps)
    ensures Owned(Exec(env, START, steps))
  {
    ExecKeepsOwned(env, START, steps);
  }

  // ---------------------------------------------------------------- monitors are never replaced

  ghost predicate StatesKept(w: World, w': World) {
    forall k :: k in w.states ==> k in w'.states && w'.states[k] == w.states[k]
  }

  lemma DeliverKeepsStates(env: Env, w: World, c: ExamClient, raw: Raw, id: Id, cell: CheatingState, now: Time)
    requires c in w.clients
    ensures StatesKept(w, Deliver(env, w, c, raw, id, cell, now))
  {
    var decoded := env.decode(raw);
    if decoded.Some? {
      CheckChainSameOwners(env, w, c, raw, now);
      var w1 := CheckChain(env, w, c, raw, now);
      var w2 := Dispatch(env, w1, c, decoded.value, id, cell, now);
      match decoded.value
      case Event(event, detail) => EventSameOwners(env, w1, c, event, detail, id, now);
      case _ =>
      assert StatesKept(w1, w2);
    }
  }

  lemma NextKeepsStates(env: Env, w: World, step: Step)
    ensures StatesKept(w, Next(env, w, step))
  {
    var v := w.(now := step.now);
    match step.action
    case Connect(c) =>
    case Disconnect(c) =>
    case Message(c, raw, id, cell) =>
      if c in v.clients { DeliverKeepsStates(env, v, c, raw, id, cell, v.now); }
    case RegisterStudentAction(id, runId, name) =>
    case _ => OtherActionSameOwners(env, v, step.action);
  }

  /** A monitor, once stored under a student, stays there for the rest of the run. */
  lemma {:induction false} MonitorsAreNeverReplaced(env: Env, w: World, steps: seq<Step>)
    ensures StatesKept(w, Exec(env, w, steps))
  {
    if steps == [] {
    } else {
      var n := |steps| - 1;
      MonitorsAreNeverReplaced(env, w, steps[..n]);
      NextKeepsStates(env, Exec(env, w, steps[..n]), steps[n]);
    }
  }
}
