/**
 The server as it is written: objects updated in place and loops over the registry of connections, the map of
 monitors and the tables.  Each method is proved to take the state to the one the protocol's step function gives and
 enters that step in `history`.  Between calls the state is the one the protocol reaches by that legal history, so what
 holds of every reachable state holds of the objects.
 */
module ExamServer {
  import opened Basics
  import opened Chain
  import opened CheatingEngine
  import opened Database
  import opened Protocol
  import opened Ownership
  import opened Integrity
  import opened Finality
  import opened Records
  import Heartbeat

  class Server {
    const env: Env
    var clients: set<ExamClient>
    var cheatingStates: map<Id, CheatingState>
    var db: Db
    ghost var clock: Time
    ghost var history: seq<Step>       // the steps taken since the start
    ghost const spare: CheatingState   // what a step that allocates no monitor names in place of one

    ghost function View(): World
      reads this, clients, cheatingStates.Values
    {
      World(map c | c in clients :: c.View(), cheatingStates,
            map s | s in cheatingStates.Values :: s.View(), db, clock)
    }

    /** The state is the one a legal run of the protocol reaches. */
    ghost predicate Valid()
      reads this, clients, cheatingStates.Values
    {
      View() == Exec(env, START, history) && LegalRun(env, START, history) && spare !in cheatingStates.Values
    }

    /** What holds of the objects between calls, whatever calls came before. */
    lemma Guarantees()
      requires Valid()
      ensures Owned(View()) && Final(View()) && Heard(View()) && Recorded(View()) && AllTimed(View())
      ensures Heartbeat.FinishersMarked(View())
      ensures NeverOffRun(env, START, history) ==> DbSound(db)
    {
      Heartbeat.ReachableFinishersMarked(env, history);
      ReachableOwned(env, history);
      ReachableFinal(env, history);
      ReachableHeard(env, history);
      ReachableRecorded(env, history);
      ReachableTimed(env, history);
      RunDbSoundIff(env, START, history);
    }

    lemma OwnedNow()
      requires Valid()
      ensures Owned(View())
    {
      ReachableOwned(env, history);
    }

    /** Enters a finished step in the history. */
    ghost method Log(step: Step)
      requires LegalRun(env, START, history) && Legal(Exec(env, START, history), step)
      requires View() == Next(env, Exec(env, START, history), step) && spare !in cheatingStates.Values
      modifies this`history
      ensures Valid() && history == old(history) + [step] && View() == old(View())
    {
      ExecStep(env, START, history, step);
      assert (history + [step])[..|history|] == history;
      history := history + [step];
      OnlyTables();
    }

    constructor (env: Env)
      ensures Valid() && View() == START && this.env == env && history == []
    {
      this.env := env;
      clients, cheatingStates, db, clock, history := {}, map[], EMPTY_DB, 0, [];
      var s := new CheatingState("", "", 0);
      spare := s;
      new;
      assert View() == START;
    }

    // -------------------------------------------------------------- what one write does to the view

    twostate lemma OnlyClient(c: ExamClient)
      requires c in clients && unchanged(this)
      requires forall d :: d in clients && d != c ==> unchanged(d)
      requires forall s :: s in cheatingStates.Values ==> unchanged(s)
      ensures View() == PutClient(old(View()), c, c.View())
    {
      assert View().monitors == old(View()).monitors;
      assert View().clients == old(View()).clients[c := c.View()];
    }

    twostate lemma OnlyMonitor(s: CheatingState)
      requires s in cheatingStates.Values && unchanged(this)
      requires forall d :: d in clients ==> unchanged(d)
      requires forall t :: t in cheatingStates.Values && t != s ==> unchanged(t)
      ensures View() == PutMonitor(old(View()), s, s.View())
    {
      assert View().clients == old(View()).clients;
      assert View().monitors == old(View()).monitors[s := s.View()];
    }

    twostate lemma OnlyTables()
      requires clients == old(clients) && cheatingStates == old(cheatingStates)
      requires forall d :: d in clients ==> unchanged(d)
      requires forall s :: s in cheatingStates.Values ==> unchanged(s)
      ensures View() == old(View()).(db := db, now := clock)
    {
      assert View().clients == old(View()).clients;
      assert View().monitors == old(View()).monitors;
    }

    // -------------------------------------------------------------- connections

    method AddClient(c: ExamClient)
      modifies this`clients
      ensures clients == old(clients) + {c}
      ensures View() == PutClient(old(View()), c, c.View())
    {
      clients := clients + {c};
      assert View().clients == old(View()).clients[c := c.View()];
      assert View().monitors == old(View()).monitors;
    }

    /** A new connection. */
    method Open(now: Time) returns (c: ExamClient)
      requires Valid() && now >= clock
      modifies this
      ensures fresh(c) && Valid() && history == old(history) + [At(now, Connect(c))]
      ensures View() == Next(env, old(View()), At(now, Connect(c)))
    {
      c := new ExamClient();
      clock := now;
      OnlyTables();
      AddClient(c);
      Log(At(now, Connect(c)));
    }

    method RemoveClient(c: ExamClient)
      modifies this`clients
      ensures clients == old(clients) - {c}
      ensures View() == old(View()).(clients := old(View()).clients - {c})
    {
      clients := clients - {c};
      assert View().clients == old(View()).clients - {c};
      assert View().monitors == old(View()).monitors;
    }

    /** The end of a connection. */
    method Close(c: ExamClient, now: Time)
      requires Valid() && now >= clock
      modifies this
      ensures Valid() && history == old(history) + [At(now, Disconnect(c))]
      ensures View() == Next(env, old(View()), At(now, Disconnect(c)))
    {
      clock := now;
      OnlyTables();
      RemoveClient(c);
      Log(At(now, Disconnect(c)));
    }

    // -------------------------------------------------------------- monitors

    method SaveToDB(s: CheatingState)
      modifies this`db
      ensures db == SaveStats(old(db), s.View())
      ensures View() == old(View()).(db := SaveStats(old(db), s.View()))
    {
      if s.studentId in db.students {
        db := db.(students := db.students[s.studentId := db.students[s.studentId].(stats := Some(s.View()))]);
      }
      OnlyTables();
    }

    method GetCheatingState(studentId: Id, runId: Id, now: Time) returns (s: CheatingState)
      modifies this`cheatingStates
      ensures studentId in old(cheatingStates) ==> s == old(cheatingStates)[studentId]
      ensures studentId !in old(cheatingStates) ==> fresh(s)
      ensures cheatingStates.Values == old(cheatingStates.Values) + {s}
      ensures
        var w := old(View());
        View() == w.(states := w.states[studentId := s],
                     monitors := w.monitors[s := if studentId in w.states then w.monitors[s]
                                                 else NewMonitor(studentId, runId, now)])
    {
      if studentId in cheatingStates {
        s := cheatingStates[studentId];
      } else {
        s := new CheatingState(studentId, runId, now);
      }
      StoreMonitor(studentId, s);
    }

    /** Stores a monitor under a student that has none, or has this one. */
    method StoreMonitor(studentId: Id, s: CheatingState)
      requires studentId in cheatingStates ==> cheatingStates[studentId] == s
      modifies this`cheatingStates
      ensures cheatingStates.Values == old(cheatingStates.Values) + {s}
      ensures
        var w := old(View());
        View() == w.(states := w.states[studentId := s], monitors := w.monitors[s := s.View()])
    {
      cheatingStates := cheatingStates[studentId := s];
      LoginValues(old(View()), studentId, s);
      assert View().clients == old(View()).clients;
      assert View().monitors == old(View()).monitors[s := s.View()];
    }

    static lemma LoginValues(w: World, sid: Id, s: CheatingState)
      requires w.monitors.Keys == w.states.Values
      requires sid in w.states ==> w.states[sid] == s
      ensures w.states[sid := s].Values == w.monitors.Keys + {s}
    {
      var m := w.states[sid := s];
      assert s in m.Values by { assert m[sid] == s; }
      forall t | t in w.states.Values ensures t in m.Values {
        var k :| k in w.states && w.states[k] == t;
        assert m[k] == t;
      }
    }

    // -------------------------------------------------------------- messages

    /** The monitor of a connection is stored in the map; a connection with a student has one. */
    ghost predicate Linked(c: ExamClient)
      reads this, c
    {
      && c in clients
      && (c.cheating != null ==> c.cheating in cheatingStates.Values)
      && (c.studentId != "" ==> c.cheating != null)
    }

    twostate predicate KnownOrFresh(c: ExamClient, known: set<CheatingState>)
      reads c
    {
      c.cheating != null ==> c.cheating in known || fresh(c.cheating)
    }

    /** The body of the read loop for one message; `cell` is the monitor it allocated, if it did. */
    method HandleMessage(c: ExamClient, raw: Raw, id: Id, now: Time) returns (ghost cell: CheatingState)
      requires Valid() && c in clients && now >= clock
      modifies this, clients, cheatingStates.Values
      ensures Valid() && clients == old(clients) && history == old(history) + [At(now, Message(c, raw, id, cell))]
      ensures cell !in old(cheatingStates.Values)
      ensures View() == Next(env, old(View()), At(now, Message(c, raw, id, cell)))
    {
      OwnedLinks(c);
      cell := ReceiveAt(c, raw, id, now);
      Log(At(now, Message(c, raw, id, cell)));
    }

    lemma OwnedLinks(c: ExamClient)
      requires Valid() && c in clients
      ensures Linked(c) && UniqueNames(db)
    {
      OwnedNow();
      assert ClientOwned(View(), View().clients[c]);
    }

    method ReceiveAt(c: ExamClient, raw: Raw, id: Id, now: Time) returns (ghost cell: CheatingState)
      requires Linked(c) && UniqueNames(db) && spare !in cheatingStates.Values
      modifies this, c, cheatingStates.Values
      ensures clients == old(clients) && history == old(history)
      ensures spare !in cheatingStates.Values && cell !in old(cheatingStates.Values)
      ensures View() == Next(env, old(View()), At(now, Message(c, raw, id, cell)))
    {
      clock := now;
      OnlyTables();
      cell := Receive(c, raw, id, now);
    }

    method Receive(c: ExamClient, raw: Raw, id: Id, now: Time) returns (ghost cell: CheatingState)
      requires Linked(c) && clock == now && UniqueNames(db) && spare !in cheatingStates.Values
      modifies this, c, cheatingStates.Values
      ensures clients == old(clients) && history == old(history)
      ensures spare !in cheatingStates.Values && cell !in old(cheatingStates.Values)
      ensures View() == Deliver(env, old(View()), c, raw, id, cell, now)
    {
      cell := spare;
      var decoded := env.decode(raw);
      if decoded.None? {
        return;
      }
      var hadCheating := c.cheating != null;
      CheckMessage(c, raw, now);
      cell := HandleMethod(c, decoded.value, id, now);
      if !hadCheating && c.cheating != null {
        StartMessage(c, raw);
      }
    }

    method CheckMessage(c: ExamClient, raw: Raw, now: Time)
      requires Linked(c) && UniqueNames(db)
      modifies this`db, c.cheating
      ensures Linked(c) && UniqueNames(db)
      ensures View() == CheckChain(env, old(View()), c, raw, now)
    {
      if c.cheating != null {
        var valid := c.cheating.VerifyChain(env.wire, raw, now);
        OnlyMonitor(c.cheating);
        if !valid {
          SaveToDB(c.cheating);
        }
      }
    }

    method StartMessage(c: ExamClient, raw: Raw)
      requires Linked(c) && c.cheating != null
      modifies c.cheating
      ensures View() == StartChain(env, old(View()), c, raw)
    {
      c.cheating.expectedSeq := Inc64(env.wire.header(raw).number);
      c.cheating.lastMsgHash := env.wire.hash(raw);
      OnlyMonitor(c.cheating);
    }

    method HandleMethod(c: ExamClient, call: Call, id: Id, now: Time) returns (ghost cell: CheatingState)
      requires Linked(c) && clock == now && UniqueNames(db) && spare !in cheatingStates.Values
      modifies this, c, cheatingStates.Values
      ensures clients == old(clients) && history == old(history)
      ensures Linked(c) && KnownOrFresh(c, old(cheatingStates.Values))
      ensures spare !in cheatingStates.Values && cell !in old(cheatingStates.Values)
      ensures View() == Dispatch(env, old(View()), c, call, id, cell, now)
    {
      cell := spare;
      match call
      case Login(name, runId) =>
        var status;
        status, cell := WsLogin(c, name, runId, now);
      case TeacherLogin(name, password, runId) =>
        var status := WsTeacherLogin(c, name, password, runId);
      case Event(event, detail) =>
        var status := WsEvent(c, event, detail, id, now);
      case Unknown =>
    }

    /** Is some other connection logged in as this student? */
    method ConnectedElsewhere(c: ExamClient, studentId: Id) returns (found: bool)
      ensures found <==> exists d :: d in clients && d != c && d.studentId == studentId
    {
      var todo := clients;
      while todo != {}
        invariant todo <= clients
        invariant forall d :: d in clients && d !in todo && d != c ==> d.studentId != studentId
      {
        var d :| d in todo;
        if d != c && d.studentId == studentId {
          return true;
        }
        todo := todo - {d};
      }
      return false;
    }

    method WsLogin(c: ExamClient, name: string, runId: Id, now: Time) returns (status: int, ghost cell: CheatingState)
      requires Linked(c) && clock == now && UniqueNames(db) && spare !in cheatingStates.Values
      modifies this, c, cheatingStates.Values
      ensures clients == old(clients) && history == old(history)
      ensures Linked(c) && KnownOrFresh(c, old(cheatingStates.Values))
      ensures spare !in cheatingStates.Values && cell !in old(cheatingStates.Values)
      ensures status == LoginStatus(old(View()), c, name, runId)
      ensures View() == if status != 0 then old(View())
                        else DoLogin(old(View()), c, FindStudent(old(db), runId, name).value, cell, now)
    {
      cell := spare;
      if name == "" || runId == "" {
        return -1, cell;
      }
      if sid :| sid in db.students && db.students[sid].runId == runId && db.students[sid].name == name {
        assert Matches(db, sid, runId, name);
        assert FindStudent(db, runId, name) == Some(sid);
        if RunIs(db, runId, Finished) {
          return 3, cell;
        }
        if RunIs(db, runId, Pending) {
          return 4, cell;
        }
        if HasFinished(db.events, sid) {
          return 5, cell;
        }
        var elsewhere := ConnectedElsewhere(c, sid);
        ClientStudents();
        if elsewhere {
          return 2, cell;
        }
        status := 0;
        Attach(c, sid, now);
        if sid !in old(cheatingStates) {
          cell := c.cheating;
        }
      } else {
        assert forall id :: !Matches(db, id, runId, name);
        return 1, cell;
      }
    }

    lemma ClientStudents()
      ensures forall d :: d in clients ==> d in View().clients && View().clients[d].studentId == d.studentId
    {
    }

    /** The accepted part of a login. */
    method Attach(c: ExamClient, sid: Id, now: Time)
      requires c in clients && sid in db.students && clock == now
      modifies this, c, cheatingStates.Values
      ensures clients == old(clients) && history == old(history) && c.cheating != null && c.studentId == sid
      ensures cheatingStates.Values == old(cheatingStates.Values) + {c.cheating}
      ensures if sid in old(cheatingStates) then c.cheating == old(cheatingStates)[sid] else fresh(c.cheating)
      ensures View() == LoginWith(old(View()), c, sid, c.cheating, now)
    {
      ghost var w := View();
      var row := db.students[sid];
      assert sid in cheatingStates ==> cheatingStates[sid] in cheatingStates.Values;
      var s := AttachMonitor(c, sid, row, now);
      LoginParts(w, c, sid, s, now);
      MarkConnected(s, row.name, now);
    }

    /** The parts of a login, one after the other, are the login. */
    static lemma LoginParts(w: World, c: ExamClient, sid: Id, s: CheatingState, now: Time)
      requires c in w.clients && sid in w.db.students && (sid in w.states ==> s in w.monitors)
      ensures
        var row := w.db.students[sid];
        var m0 := if sid in w.states then w.monitors[s] else NewMonitor(sid, row.runId, now);
        var m1 := ChainReset(m0).(studentName := row.name, connected := true, lastHeartbeat := now);
        var v := w.clients[c]
          .(role := StudentRole, studentId := sid, runId := row.runId, name := row.name, cheating := s);
        var w1 := PutClient(w.(states := w.states[sid := s], monitors := w.monitors[s := m0]), c, v);
        LoginWith(w, c, sid, s, now) == PutMonitor(w1, s, m1).(db := SaveStats(w.db, m1))
    {
    }

    /** Fills in the connection and fetches or creates its monitor. */
    method AttachMonitor(c: ExamClient, sid: Id, row: Student, now: Time) returns (s: CheatingState)
      requires c in clients
      modifies this`cheatingStates, c
      ensures c.cheating == s && c.studentId == sid
      ensures sid in old(cheatingStates) ==> s == old(cheatingStates)[sid]
      ensures sid !in old(cheatingStates) ==> fresh(s)
      ensures cheatingStates.Values == old(cheatingStates.Values) + {s}
      ensures s.View() == View().monitors[s]
      ensures
        var w := old(View());
        var m := if sid in w.states then w.monitors[s] else NewMonitor(sid, row.runId, now);
        View() == PutClient(w.(states := w.states[sid := s], monitors := w.monitors[s := m]), c, old(c.View())
          .(role := StudentRole, studentId := sid, runId := row.runId, name := row.name, cheating := s))
    {
      ghost var w := View();
      s := GetCheatingState(sid, row.runId, now);
      Identify(c, sid, row, s);
    }

    method Identify(c: ExamClient, sid: Id, row: Student, s: CheatingState)
      requires c in clients
      modifies c
      ensures c.cheating == s && c.studentId == sid
      ensures View() == PutClient(old(View()), c, old(c.View())
        .(role := StudentRole, studentId := sid, runId := row.runId, name := row.name, cheating := s))
    {
      c.role := StudentRole;
      c.studentId := sid;
      c.runId := row.runId;
      c.name := row.name;
      c.cheating := s;
      OnlyClient(c);
    }

    method MarkConnected(s: CheatingState, name: string, now: Time)
      requires s in cheatingStates.Values
      modifies this`db, s
      ensures
        var m := ChainReset(old(s.View())).(studentName := name, connected := true, lastHeartbeat := now);
        View() == PutMonitor(old(View()), s, m).(db := SaveStats(old(db), m))
    {
      s.ResetChain();
      s.studentName := name;
      s.connected := true;
      s.lastHeartbeat := now;
      OnlyMonitor(s);
      SaveToDB(s);
    }

    method WsTeacherLogin(c: ExamClient, name: string, password: string, runId: Id) returns (status: int)
      requires Linked(c)
      modifies c
      ensures Linked(c)
      ensures status == TeacherLoginStatus(env, old(View()), name, password, runId)
      ensures View() == if status != 0 then old(View())
                        else DoTeacherLogin(old(View()), c, TeacherNamed(db.teachers, name).value, runId)
    {
      if name == "" || password == "" || runId == "" {
        return -1;
      }
      var teacher := TeacherNamed(db.teachers, name);
      if teacher.None? || !env.verify(teacher.value.passwordHash, password) {
        return 1;
      }
      c.role := TeacherRole;
      c.teacherId := teacher.value.id;
      c.runId := runId;
      c.name := teacher.value.name;
      status := 0;
      OnlyClient(c);
    }

    /**
     An event.  The source ends by logging the monitor without asking whether there is one; ownership is why an
     accepted event always has one.
     */
    method WsEvent(c: ExamClient, event: string, detail: Detail, id: Id, now: Time) returns (status: int)
      requires Linked(c)
      modifies this`db, c, c.cheating
      ensures Linked(c)
      ensures status == EventStatus(old(View()), c, event, id)
      ensures View() == if status != 0 then old(View()) else DoEvent(env, old(View()), c, event, detail, id, now)
    {
      if c.studentId == "" || event == "" {
        return -1;
      }
      if c.finished && event != STUDENT_FINISHED {
        return -1;
      }
      if !RunIs(db, c.runId, Running) {
        return -1;
      }
      if EventIdTaken(db.events, id) {
        return -1;
      }
      status := 0;
      AcceptEvent(c, event, detail, id, now);
    }

    method AcceptEvent(c: ExamClient, event: string, detail: Detail, id: Id, now: Time)
      requires Linked(c) && c.cheating != null
      modifies this`db, c`finished, c.cheating
      ensures Linked(c)
      ensures View() == DoEvent(env, old(View()), c, event, detail, id, now)
    {
      InsertEvent(c, event, id, now);
      WatchEvent(c, event, detail, now);
    }

    /** The row of an accepted event and the connection's mark. */
    method InsertEvent(c: ExamClient, event: string, id: Id, now: Time)
      requires Linked(c)
      modifies this`db, c`finished
      ensures
        var v := old(c.View());
        var row := EventRow(id, v.studentId, v.runId, event, now);
        && c.View() == v.(finished := v.finished || event == STUDENT_FINISHED)
        && View() == PutClient(old(View()).(db := old(db).(events := old(db).events + [row])), c, c.View())
    {
      db := db.(events := db.events + [EventRow(id, c.studentId, c.runId, event, now)]);
      OnlyTables();
      label inserted:
      if event == STUDENT_FINISHED {
        c.finished := true;
      }
      OnlyClient@inserted(c);
    }

    /** The monitor's part of an accepted event. */
    method WatchEvent(c: ExamClient, event: string, detail: Detail, now: Time)
      requires Linked(c) && c.cheating != null
      modifies this`db, c.cheating
      ensures Linked(c)
      ensures
        var m := old(c.cheating.View());
        View() == Record(old(View()), c.cheating, m,
          Updated(m.(finished := m.finished || event == STUDENT_FINISHED), env.lower, event, detail, now))
    {
      if event == STUDENT_FINISHED {
        c.cheating.finished := true;
      }
      var flagsBefore := |c.cheating.flags|;
      c.cheating.Update(env.lower, event, detail, now);
      OnlyMonitor(c.cheating);
      if |c.cheating.flags| > flagsBefore {
        SaveToDB(c.cheating);
      }
    }

    // -------------------------------------------------------------- checkers

    /** One pass of the heartbeat checker. */
    method HeartbeatPass(now: Time)
      requires Valid() && now >= clock
      modifies this`db, this`clock, this`history, cheatingStates.Values
      ensures Valid() && history == old(history) + [At(now, HeartbeatTick)]
      ensures View() == Next(env, old(View()), At(now, HeartbeatTick))
    {
      OwnedNow();
      CheckStudentsAt(now);
      Log(At(now, HeartbeatTick));
    }

    method CheckStudentsAt(now: Time)
      requires MapOwned(View())
      modifies this`db, this`clock, cheatingStates.Values
      ensures View() == Next(env, old(View()), At(now, HeartbeatTick))
    {
      clock := now;
      OnlyTables();
      HeartbeatsAllDone(View());
      CheckStudents(now);
    }

    method CheckStudents(now: Time)
      requires MapOwned(View())
      modifies this`db, cheatingStates.Values
      ensures View() == HeartbeatsDone(old(View()), old(cheatingStates).Keys, now)
    {
      ghost var w := View();
      HeartbeatsNoneDone(w, now);
      var todo := cheatingStates.Keys;
      while todo != {}
        invariant todo <= cheatingStates.Keys && unchanged(this`cheatingStates) && unchanged(this`clients)
        invariant View() == HeartbeatsDone(w, cheatingStates.Keys - todo, now)
      {
        var k :| k in todo;
        ghost var done := cheatingStates.Keys - todo;
        todo := todo - {k};
        assert cheatingStates.Keys - todo == done + {k};
        CheckNext(w, done, k, now);
      }
      assert cheatingStates.Keys - todo == cheatingStates.Keys;
    }

    method CheckNext(ghost w: World, ghost done: set<Id>, k: Id, now: Time)
      requires MapOwned(w) && k in cheatingStates && k in w.states && k !in done
      requires View() == HeartbeatsDone(w, done, now)
      modifies this`db, cheatingStates.Values
      ensures View() == HeartbeatsDone(w, done + {k}, now)
    {
      HeartbeatDoneStep(w, done, k, now);
      CheckStudent(cheatingStates[k], now);
    }

    method CheckStudent(s: CheatingState, now: Time)
      requires s in cheatingStates.Values
      modifies this`db, s
      ensures View() == CheckOne(old(View()), s, now)
    {
      var flagged := s.Tick(now);
      OnlyMonitor(s);
      if flagged {
        SaveToDB(s);
      }
    }

    /** One pass of the expiry checker. */
    method ExpiryPass(now: Time)
      requires Valid() && now >= clock
      modifies this`db, this`clock, this`history, clients, cheatingStates.Values
      ensures Valid() && history == old(history) + [At(now, ExpiryTick)]
      ensures View() == Next(env, old(View()), At(now, ExpiryTick))
    {
      LinkedAll();
      CloseAllAt(now);
      Log(At(now, ExpiryTick));
    }

    method CloseAllAt(now: Time)
      requires AllLinked()
      modifies this`db, this`clock, clients, cheatingStates.Values
      ensures View() == Next(env, old(View()), At(now, ExpiryTick))
    {
      clock := now;
      OnlyTables();
      CloseAll(now);
    }

    method CloseAll(now: Time)
      requires AllLinked() && clock == now
      modifies this`db, clients, cheatingStates.Values
      ensures View() == DoExpiry(old(View()))
    {
      var expired := FindExpired(now);
      CloseExpired(expired, now);
    }

    method FindExpired(now: Time) returns (expired: set<Id>)
      ensures expired == ExpiredRuns(db, now)
    {
      expired := {};
      var todo := db.runs.Keys;
      while todo != {}
        invariant todo <= db.runs.Keys
        invariant expired == set r | r in db.runs && r !in todo && Expired(db, r, now)
      {
        var r :| r in todo;
        todo := todo - {r};
        if Expired(db, r, now) {
          expired := expired + {r};
        }
      }
    }

    /** Every connection's monitor is stored in the map. */
    ghost predicate AllLinked()
      reads this, clients
    {
      forall c :: c in clients && c.cheating != null ==> c.cheating in cheatingStates.Values
    }

    lemma LinkedAll()
      requires Valid()
      ensures AllLinked()
    {
      OwnedNow();
      forall c | c in clients && c.cheating != null ensures c.cheating in cheatingStates.Values {
        assert ClientOwned(View(), View().clients[c]);
      }
    }

    method CloseExpired(expired: set<Id>, now: Time)
      requires AllLinked() && expired <= db.runs.Keys
      modifies this`db, clients, cheatingStates.Values
      ensures View() == RunsEnded(old(View()), expired, now)
    {
      ghost var w := View();
      RunsEndedNone(w, now);
      var todo := expired;
      while todo != {}
        invariant todo <= expired && unchanged(this`cheatingStates) && unchanged(this`clients)
        invariant AllLinked() && View() == RunsEnded(w, expired - todo, now)
      {
        var r :| r in todo;
        ghost var done := expired - todo;
        todo := todo - {r};
        assert expired - todo == done + {r};
        CloseNext(w, done, r, now);
      }
      assert expired - todo == expired;
    }

    method CloseNext(ghost w: World, ghost done: set<Id>, r: Id, now: Time)
      requires AllLinked() && r in w.db.runs && View() == RunsEnded(w, done, now)
      modifies this`db, clients, cheatingStates.Values
      ensures AllLinked() && View() == RunsEnded(w, done + {r}, now)
    {
      RunsEndedStep(w, done, r, now);
      CloseRun(r, now);
    }

    method CloseRun(r: Id, now: Time)
      requires AllLinked() && r in db.runs
      modifies this`db, clients, cheatingStates.Values
      ensures AllLinked() && View() == NotifyEnded(old(View()).(db := CloseRuns(old(db), {r}, now)), {r})
    {
      db := db.(runs := db.runs[r := db.runs[r].(status := Finished, endedAt := Some(now))]);
      assert db.runs == CloseRuns(old(db), {r}, now).runs;
      OnlyTables();
      NotifyRunEnded(r);
    }

    method NotifyRunEnded(runId: Id)
      requires AllLinked()
      modifies clients, cheatingStates.Values
      ensures AllLinked() && View() == NotifyEnded(old(View()), {runId})
    {
      NotifiedAll(View(), runId);
      NotifyClients(runId);
    }

    method NotifyClients(runId: Id)
      requires AllLinked()
      modifies clients, cheatingStates.Values
      ensures AllLinked() && View() == Notified(old(View()), clients, runId)
    {
      ghost var w := View();
      NotifiedNone(w, runId);
      var todo := clients;
      assert clients - todo == {};
      while todo != {}
        invariant todo <= clients && AllLinked()
        invariant View() == Notified(w, clients - todo, runId)
      {
        var c :| c in todo;
        ghost var done := clients - todo;
        todo := todo - {c};
        assert clients - todo == done + {c};
        NotifyNext(w, done, c, runId);
      }
      assert clients - todo == clients;
    }

    method NotifyNext(ghost w: World, ghost done: set<ExamClient>, c: ExamClient, runId: Id)
      requires AllLinked() && c in clients && c in w.clients && c !in done
      requires View() == Notified(w, done, runId)
      modifies clients, cheatingStates.Values
      ensures AllLinked() && View() == Notified(w, done + {c}, runId)
    {
      NotifiedStep(w, done, c, runId);
      NotifyClient(c, runId);
    }

    method NotifyClient(c: ExamClient, runId: Id)
      requires c in clients && AllLinked()
      modifies c`finished, c.cheating
      ensures AllLinked() && View() == NotifyOne(old(View()), c, runId)
    {
      if c.runId == runId && c.role == StudentRole {
        c.finished := true;
        OnlyClient(c);
        label marked:
        if c.cheating != null {
          c.cheating.finished := true;
          OnlyMonitor@marked(c.cheating);
        }
      }
    }

    // -------------------------------------------------------------- tables

    method HandleRegister(id: Id, name: string, password: string, hash: string, now: Time) returns (http: Http)
      requires Valid() && now >= clock
      modifies this`db, this`clock, this`history
      ensures Valid() && history == old(history) + [At(now, RegisterTeacherAction(id, name, password, hash))]
      ensures View() == Next(env, old(View()), At(now, RegisterTeacherAction(id, name, password, hash)))
      ensures http == RegisterTeacher(old(db), id, name, password, hash).1
    {
      clock := now;
      if name == "" || password == "" {
        http := BadRequest;
      } else if IsTeacher(db, id) {
        http := InternalError;
      } else {
        db := db.(teachers := db.teachers + [Teacher(id, name, hash)]);
        http := Created;
      }
      OnlyTables();
      Log(At(now, RegisterTeacherAction(id, name, password, hash)));
    }

    method HandleCreateExam(id: Id, createdBy: Id, name: string, settings: Settings, now: Time) returns (http: Http)
      requires Valid() && now >= clock && Fresh(View(), id)
      modifies this`db, this`clock, this`history
      ensures Valid() && history == old(history) + [At(now, CreateExamAction(id, createdBy, name, settings))]
      ensures View() == Next(env, old(View()), At(now, CreateExamAction(id, createdBy, name, settings)))
      ensures http == CreateExam(old(db), id, createdBy, name, settings).1
    {
      clock := now;
      if createdBy == "" || name == "" {
        http := BadRequest;
      } else if !IsTeacher(db, createdBy) {
        http := BadRequest;
      } else if id in db.exams {
        http := InternalError;
      } else {
        db := db.(exams := db.exams[id := Exam(createdBy, name, settings)]);
        http := Created;
      }
      OnlyTables();
      Log(At(now, CreateExamAction(id, createdBy, name, settings)));
    }

    method HandleUpdateExam(id: Id, name: string, settings: Option<Settings>, now: Time) returns (http: Http)
      requires Valid() && now >= clock
      modifies this`db, this`clock, this`history
      ensures Valid() && history == old(history) + [At(now, UpdateExamAction(id, name, settings))]
      ensures View() == Next(env, old(View()), At(now, UpdateExamAction(id, name, settings)))
      ensures http == UpdateExam(old(db), id, name, settings).1
    {
      clock := now;
      if id == "" {
        http := BadRequest;
      } else if id !in db.exams {
        http := NotFound;
      } else if exists r :: r in db.runs && db.runs[r].examId == id && db.runs[r].status == Running {
        http := Conflict;
      } else {
        EditExam(id, name, settings);
        http := Success;
      }
      OnlyTables();
      Log(At(now, UpdateExamAction(id, name, settings)));
    }

    method EditExam(id: Id, name: string, settings: Option<Settings>)
      requires id in db.exams
      modifies this`db
      ensures
        var exam := old(db).exams[id];
        var named := if name != "" then exam.(name := name) else exam;
        db == old(db)
          .(exams := old(db).exams[id := if settings.Some? then named.(settings := settings.value) else named])
    {
      if name != "" {
        db := db.(exams := db.exams[id := db.exams[id].(name := name)]);
      }
      if settings.Some? {
        db := db.(exams := db.exams[id := db.exams[id].(settings := settings.value)]);
      }
    }

    method HandleDeleteExam(id: Id, now: Time) returns (http: Http)
      requires Valid() && now >= clock
      modifies this`db, this`clock, this`history
      ensures Valid() && history == old(history) + [At(now, DeleteExamAction(id))]
      ensures View() == Next(env, old(View()), At(now, DeleteExamAction(id)))
      ensures http == DeleteExam(old(db), id).1
    {
      clock := now;
      if id == "" {
        http := BadRequest;
      } else if id !in db.exams {
        http := NotFound;
      } else {
        db := DeleteEvents(db, RunsOf(db, id));
        db := DeleteStudents(db, RunsOf(db, id));
        db := DeleteRuns(db, RunsOf(db, id));
        db := db.(exams := db.exams - {id});
        http := Success;
      }
      OnlyTables();
      Log(At(now, DeleteExamAction(id)));
    }

    method HandleCreateRun(id: Id, examId: Id, now: Time) returns (http: Http)
      requires Valid() && now >= clock && Fresh(View(), id)
      modifies this`db, this`clock, this`history
      ensures Valid() && history == old(history) + [At(now, CreateRunAction(id, examId))]
      ensures View() == Next(env, old(View()), At(now, CreateRunAction(id, examId)))
      ensures http == CreateRun(old(db), id, examId).1
    {
      clock := now;
      if examId == "" {
        http := BadRequest;
      } else if examId !in db.exams {
        http := BadRequest;
      } else if id in db.runs {
        http := InternalError;
      } else {
        db := db.(runs := db.runs[id := ExamRun(examId, Pending, None, None)]);
        http := Created;
      }
      OnlyTables();
      Log(At(now, CreateRunAction(id, examId)));
    }

    method HandleDeleteRun(id: Id, now: Time) returns (http: Http)
      requires Valid() && now >= clock
      modifies this`db, this`clock, this`history
      ensures Valid() && history == old(history) + [At(now, DeleteRunAction(id))]
      ensures View() == Next(env, old(View()), At(now, DeleteRunAction(id)))
      ensures http == DeleteRun(old(db), id).1
    {
      clock := now;
      if id == "" {
        http := BadRequest;
      } else if id !in db.runs {
        http := NotFound;
      } else {
        db := DeleteEvents(db, {id});
        db := DeleteStudents(db, {id});
        db := DeleteRuns(db, {id});
        http := Success;
      }
      OnlyTables();
      Log(At(now, DeleteRunAction(id)));
    }

    method HandleRegisterStudent(id: Id, runId: Id, name: string, now: Time) returns (http: Http)
      requires Valid() && now >= clock && Fresh(View(), id)
      modifies this`db, this`clock, this`history
      ensures Valid() && history == old(history) + [At(now, RegisterStudentAction(id, runId, name))]
      ensures View() == Next(env, old(View()), At(now, RegisterStudentAction(id, runId, name)))
      ensures http == RegisterStudent(old(db), id, runId, name).1
    {
      clock := now;
      if runId == "" || name == "" {
        http := BadRequest;
      } else if runId !in db.runs {
        http := NotFound;
      } else if s :| s in db.students && db.students[s].runId == runId && db.students[s].name == name {
        assert Matches(db, s, runId, name);
        http := Success;
      } else {
        assert forall s :: !Matches(db, s, runId, name);
        if id in db.students {
          http := InternalError;
        } else {
          db := db.(students := db.students[id := Student(runId, name, None)]);
          http := Created;
        }
      }
      OnlyTables();
      Log(At(now, RegisterStudentAction(id, runId, name)));
    }

    method HandleSetStatus(runId: Id, status: Option<RunStatus>, now: Time) returns (http: Http)
      requires Valid() && now >= clock
      modifies this`db, this`clock, this`history, clients, cheatingStates.Values
      ensures Valid() && history == old(history) + [At(now, SetStatusAction(runId, status))]
      ensures View() == Next(env, old(View()), At(now, SetStatusAction(runId, status)))
      ensures http == SetStatus(old(db), runId, status, now).1
    {
      LinkedAll();
      http := WriteStatusAt(runId, status, now);
      Log(At(now, SetStatusAction(runId, status)));
    }

    method WriteStatusAt(runId: Id, status: Option<RunStatus>, now: Time) returns (http: Http)
      requires AllLinked()
      modifies this`db, this`clock, clients, cheatingStates.Values
      ensures View() == Next(env, old(View()), At(now, SetStatusAction(runId, status)))
      ensures http == SetStatus(old(db), runId, status, now).1
    {
      clock := now;
      OnlyTables();
      http := WriteStatus(runId, status, now);
    }

    method WriteStatus(runId: Id, status: Option<RunStatus>, now: Time) returns (http: Http)
      requires AllLinked() && clock == now
      modifies this`db, clients, cheatingStates.Values
      ensures View() == DoSetStatus(old(View()), runId, status)
      ensures http == SetStatus(old(db), runId, status, now).1
    {
      if runId == "" || status.None? {
        return BadRequest;
      }
      if runId !in db.runs {
        return NotFound;
      }
      http := Success;
      var run := db.runs[runId].(status := status.value);
      match status.value
      case Running =>
        db := db.(runs := db.runs[runId := run.(startedAt := Some(now))]);
        OnlyTables();
      case Finished =>
        db := db.(runs := db.runs[runId := run.(endedAt := Some(now))]);
        OnlyTables();
        NotifyRunEnded(runId);
      case Pending =>
        db := db.(runs := db.runs[runId := run]);
        OnlyTables();
    }

    method HandleClearFlags(studentId: Id, now: Time) returns (http: Http)
      requires Valid() && now >= clock
      modifies this`db, this`clock, this`history, cheatingStates.Values
      ensures Valid() && history == old(history) + [At(now, ClearFlagsAction(studentId))]
      ensures View() == Next(env, old(View()), At(now, ClearFlagsAction(studentId)))
      ensures http == if studentId == "" then BadRequest else Success
    {
      clock := now;
      OnlyTables();
      if studentId == "" {
        http := BadRequest;
      } else {
        http := Success;
        ClearRecord(studentId);
      }
      Log(At(now, ClearFlagsAction(studentId)));
    }

    method ClearRecord(studentId: Id)
      requires studentId != ""
      modifies this`db, cheatingStates.Values
      ensures View() == DoClear(old(View()), studentId)
    {
      if studentId in cheatingStates {
        var s := cheatingStates[studentId];
        assert s in cheatingStates.Values;
        s.flags := [];
        s.score := 0;
        OnlyMonitor(s);
        SaveToDB(s);
      } else {
        if studentId in db.students {
          db := db.(students := db.students[studentId := db.students[studentId].(stats := None)]);
        }
        OnlyTables();
      }
    }
  }

  // ---------------------------------------------------------------- a heartbeat pass, student by student

  function CheckOne(w: World, s: CheatingState, now: Time): World
    requires s in w.monitors
  {
    var m := Ticked(w.monitors[s], now);
    var w' := PutMonitor(w, s, m);
    if Silent(w.monitors[s], now) then w'.(db := SaveStats(w.db, m)) else w'
  }

  /** The pass after the students in `done`. */
  ghost function HeartbeatsDone(w: World, done: set<Id>, now: Time): World {
    w.(monitors := map s | s in w.monitors ::
         if w.monitors[s].studentId in done then Ticked(w.monitors[s], now) else w.monitors[s],
       db := w.db.(students := map sid | sid in w.db.students ::
         if sid in done && Lapsed(w, sid, now)
         then w.db.students[sid].(stats := Some(Ticked(w.monitors[w.states[sid]], now)))
         else w.db.students[sid]))
  }

  lemma HeartbeatsNoneDone(w: World, now: Time)
    ensures HeartbeatsDone(w, {}, now) == w
  {
    assert HeartbeatsDone(w, {}, now).monitors == w.monitors;
    assert HeartbeatsDone(w, {}, now).db.students == w.db.students;
  }

  lemma HeartbeatDoneStep(w: World, done: set<Id>, k: Id, now: Time)
    requires MapOwned(w) && k in w.states && k !in done
    ensures w.states[k] in HeartbeatsDone(w, done, now).monitors
    ensures CheckOne(HeartbeatsDone(w, done, now), w.states[k], now) == HeartbeatsDone(w, done + {k}, now)
  {
    HeartbeatDoneMonitors(w, done, k, now);
    var w' := CheckOne(HeartbeatsDone(w, done, now), w.states[k], now);
    assert w'.db.students == HeartbeatsDone(w, done + {k}, now).db.students;
  }

  lemma HeartbeatDoneMonitors(w: World, done: set<Id>, k: Id, now: Time)
    requires MapOwned(w) && k in w.states && k !in done
    ensures
      var before := HeartbeatsDone(w, done, now).monitors;
      var s := w.states[k];
      && s in before && before[s] == w.monitors[s]
      && before[s := Ticked(before[s], now)] == HeartbeatsDone(w, done + {k}, now).monitors
  {
    forall t | t in w.monitors ensures w.monitors[t].studentId == k <==> t == w.states[k] {
      assert w.states[w.monitors[t].studentId] == t;
    }
  }

  lemma HeartbeatsAllDone(w: World)
    requires MapOwned(w)
    ensures HeartbeatsDone(w, w.states.Keys, w.now) == DoHeartbeats(w)
  {
    assert HeartbeatsDone(w, w.states.Keys, w.now).monitors == DoHeartbeats(w).monitors;
    assert HeartbeatsDone(w, w.states.Keys, w.now).db.students == DoHeartbeats(w).db.students;
  }

  // ---------------------------------------------------------------- the end of runs, one by one

  ghost function RunsEnded(w: World, rs: set<Id>, now: Time): World {
    NotifyEnded(w.(db := CloseRuns(w.db, rs, now)), rs)
  }

  lemma RunsEndedNone(w: World, now: Time)
    ensures RunsEnded(w, {}, now) == w
  {
    assert CloseRuns(w.db, {}, now).runs == w.db.runs;
    assert NotifyEnded(w, {}).clients == w.clients;
    assert NotifyEnded(w, {}).monitors == w.monitors;
  }

  lemma RunsEndedStep(w: World, done: set<Id>, r: Id, now: Time)
    ensures
      var before := RunsEnded(w, done, now);
      NotifyEnded(before.(db := CloseRuns(before.db, {r}, now)), {r}) == RunsEnded(w, done + {r}, now)
  {
    CloseRunsStep(w.db, done, r, now);
    var before := RunsEnded(w, done, now);
    NotifyEndedStep(w.(db := CloseRuns(w.db, done + {r}, now)), before.(db := CloseRuns(before.db, {r}, now)), done, r);
  }

  lemma CloseRunsStep(db: Db, done: set<Id>, r: Id, now: Time)
    ensures CloseRuns(CloseRuns(db, done, now), {r}, now) == CloseRuns(db, done + {r}, now)
  {
    assert CloseRuns(CloseRuns(db, done, now), {r}, now).runs == CloseRuns(db, done + {r}, now).runs;
  }

  lemma NotifyEndedStep(w: World, mid: World, done: set<Id>, r: Id)
    requires mid == NotifyEnded(w, done)
    ensures NotifyEnded(mid, {r}) == NotifyEnded(w, done + {r})
  {
    var after := NotifyEnded(w, done + {r});
    assert NotifyEnded(mid, {r}).clients == after.clients;
    forall s | s in w.monitors
      ensures EndedMonitor(w, s, done + {r}) <==> EndedMonitor(w, s, done) || EndedMonitor(mid, s, {r})
    {
      EndedStep(w, mid, s, done, r);
    }
    assert NotifyEnded(mid, {r}).monitors == after.monitors;
  }

  lemma EndedStep(w: World, mid: World, s: CheatingState, done: set<Id>, r: Id)
    requires mid.clients.Keys == w.clients.Keys
    requires forall c :: c in w.clients ==> mid.clients[c] == w.clients[c].(finished := mid.clients[c].finished)
    ensures EndedMonitor(w, s, done + {r}) <==> EndedMonitor(w, s, done) || EndedMonitor(mid, s, {r})
  {
    assert forall c :: c in w.clients ==> EndedClient(mid.clients[c], {r}) == EndedClient(w.clients[c], {r});
    assert EndedMonitor(mid, s, {r}) <==> EndedMonitor(w, s, {r});
  }

  function NotifyOne(w: World, c: ExamClient, runId: Id): World
    requires c in w.clients
  {
    var v := w.clients[c];
    if EndedClient(v, {runId}) then
      var w' := PutClient(w, c, v.(finished := true));
      if v.cheating != null && v.cheating in w.monitors
      then PutMonitor(w', v.cheating, w.monitors[v.cheating].(finished := true))
      else w'
    else w
  }

  /** The notice of one run after the connections in `done`. */
  ghost function Notified(w: World, done: set<ExamClient>, runId: Id): World {
    w.(clients := map c | c in w.clients ::
         w.clients[c].(finished := w.clients[c].finished || (c in done && EndedClient(w.clients[c], {runId}))),
       monitors := map s | s in w.monitors ::
         w.monitors[s].(finished := w.monitors[s].finished || NotifiedMonitor(w, done, s, runId)))
  }

  ghost predicate NotifiedMonitor(w: World, done: set<ExamClient>, s: CheatingState, runId: Id) {
    exists c :: c in done && c in w.clients && EndedClient(w.clients[c], {runId}) && w.clients[c].cheating == s
  }

  lemma NotifiedNone(w: World, runId: Id)
    ensures Notified(w, {}, runId) == w
  {
    assert Notified(w, {}, runId).clients == w.clients;
    assert Notified(w, {}, runId).monitors == w.monitors;
  }

  lemma NotifiedAll(w: World, runId: Id)
    ensures Notified(w, w.clients.Keys, runId) == NotifyEnded(w, {runId})
  {
    assert Notified(w, w.clients.Keys, runId).clients == NotifyEnded(w, {runId}).clients;
    forall s | s in w.monitors ensures NotifiedMonitor(w, w.clients.Keys, s, runId) <==> EndedMonitor(w, s, {runId}) {
    }
    assert Notified(w, w.clients.Keys, runId).monitors == NotifyEnded(w, {runId}).monitors;
  }

  lemma NotifiedStep(w: World, done: set<ExamClient>, c: ExamClient, runId: Id)
    requires c in w.clients && c !in done
    ensures NotifyOne(Notified(w, done, runId), c, runId) == Notified(w, done + {c}, runId)
  {
    var before, after := Notified(w, done, runId), Notified(w, done + {c}, runId);
    var w' := NotifyOne(before, c, runId);
    assert w'.clients == after.clients;
    NotifiedMonitorStep(w, done, c, runId);
    assert w'.monitors == after.monitors;
  }

  lemma NotifiedMonitorStep(w: World, done: set<ExamClient>, c: ExamClient, runId: Id)
    requires c in w.clients
    ensures forall s :: s in w.monitors ==>
      (NotifiedMonitor(w, done + {c}, s, runId) <==>
       NotifiedMonitor(w, done, s, runId) || (EndedClient(w.clients[c], {runId}) && w.clients[c].cheating == s))
  {
  }
}
