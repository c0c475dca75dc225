/** "Finished" is final: across connections, re-logins and deletions. */
module Finality {
  import opened Basics
  import opened Chain
  import opened CheatingEngine
  import opened Database
  import opened Protocol
  import opened Ownership
  import opened Integrity

  /** After a student's finish row, every later row of that student is a finish row. */
  ghost predicate Ordered(events: seq<EventRow>) {
    forall i, j :: 0 <= i < j < |events| && FinishedRow(events[i], events[j].studentId)
      ==> events[j].event == STUDENT_FINISHED
  }

  /** Every connection of a student with a finish row is marked. */
  ghost predicate Marked(w: World) {
    forall c :: c in w.clients && w.clients[c].studentId != "" && HasFinished(w.db.events, w.clients[c].studentId)
      ==> w.clients[c].finished
  }

  ghost predicate Final(w: World) {
    Ordered(w.db.events) && Marked(w)
  }

  /** Connections keep their student and their mark; new ones have no student. */
  ghost predicate MarksKept(w: World, w': World) {
    forall c :: c in w'.clients ==>
      if c in w.clients
      then w'.clients[c].studentId == w.clients[c].studentId && (w.clients[c].finished ==> w'.clients[c].finished)
      else w'.clients[c].studentId == ""
  }

  // ---------------------------------------------------------------- deletion

  lemma OrderedExtended(events: seq<EventRow>, row: EventRow)
    requires Ordered(events)
    requires HasFinished(events, row.studentId) ==> row.event == STUDENT_FINISHED
    ensures Ordered(events + [row])
  {
    var all := events + [row];
    forall i, j | 0 <= i < j < |all| && FinishedRow(all[i], all[j].studentId)
      ensures all[j].event == STUDENT_FINISHED
    {
      assert all[i] == events[i];
      assert j < |events| ==> all[j] == events[j];
    }
  }

  lemma {:induction false} DeletionKeepsOrdered(events: seq<EventRow>, gone: set<Id>)
    requires Ordered(events)
    ensures Ordered(WithoutRuns(events, gone))
  {
    if events == [] {
    } else {
      var n := |events| - 1;
      DeletionKeepsOrdered(events[..n], gone);
      if events[n].runId !in gone {
        if HasFinished(WithoutRuns(events[..n], gone), events[n].studentId) {
          DeletionForgets(events[..n], gone, events[n].studentId);
          var i :| 0 <= i < n && FinishedRow(events[..n][i], events[n].studentId);
          assert FinishedRow(events[i], events[n].studentId);
        }
        OrderedExtended(WithoutRuns(events[..n], gone), events[n]);
      }
    }
  }

  lemma DeletionForgets(events: seq<EventRow>, gone: set<Id>, sid: Id)
    requires HasFinished(WithoutRuns(events, gone), sid)
    ensures HasFinished(events, sid)
  {
    var kept := WithoutRuns(events, gone);
    var i :| 0 <= i < |kept| && FinishedRow(kept[i], sid);
    assert kept[i] in events;
    var j :| 0 <= j < |events| && events[j] == kept[i];
    assert FinishedRow(events[j], sid);
  }

  // ---------------------------------------------------------------- one step

  ghost predicate Shrunk(events: seq<EventRow>, events': seq<EventRow>) {
    exists gone :: events' == WithoutRuns(events, gone)
  }

  lemma FrameKeepsFinal(w: World, w': World)
    requires Final(w) && MarksKept(w, w')
    requires w'.db.events == w.db.events || Shrunk(w.db.events, w'.db.events)
    ensures Final(w')
  {
    if w'.db.events != w.db.events {
      var gone :| w'.db.events == WithoutRuns(w.db.events, gone);
      DeletionKeepsOrdered(w.db.events, gone);
      forall c | c in w'.clients && w'.clients[c].studentId != "" && HasFinished(w'.db.events, w'.clients[c].studentId)
        ensures w'.clients[c].finished
      {
        DeletionForgets(w.db.events, gone, w'.clients[c].studentId);
      }
    }
  }

  lemma HasFinishedAfter(events: seq<EventRow>, row: EventRow, sid: Id)
    ensures HasFinished(events + [row], sid) <==> HasFinished(events, sid) || FinishedRow(row, sid)
  {
    var all := events + [row];
    assert all[|events|] == row;
    if HasFinished(events, sid) {
      var i :| 0 <= i < |events| && FinishedRow(events[i], sid);
      assert all[i] == events[i];
    }
  }

  lemma EventKeepsFinal(env: Env, w: World, c: ExamClient, event: string, detail: Detail, id: Id, now: Time)
    requires Exclusive(w) && Final(w) && c in w.clients && EventStatus(w, c, event, id) == 0
    ensures Final(DoEvent(env, w, c, event, detail, id, now))
  {
    var v := w.clients[c];
    var row := EventRow(id, v.studentId, v.runId, event, now);
    var w' := DoEvent(env, w, c, event, detail, id, now);
    EventRows(env, w, c, event, detail, id, now);
    assert w'.db.events == w.db.events + [row];
    if event != STUDENT_FINISHED {
      assert !HasFinished(w.db.events, v.studentId);
    }
    forall d | d in w'.clients && w'.clients[d].studentId != "" && HasFinished(w'.db.events, w'.clients[d].studentId)
      ensures w'.clients[d].finished
    {
      HasFinishedAfter(w.db.events, row, w.clients[d].studentId);
    }
  }

  lemma LoginKeepsFinal(w: World, c: ExamClient, name: string, runId: Id, cell: CheatingState, now: Time)
    requires Final(w) && c in w.clients && LoginStatus(w, c, name, runId) == 0
    ensures Final(DoLogin(w, c, FindStudent(w.db, runId, name).value, cell, now))
  {
  }

  lemma CheckChainFrame(env: Env, w: World, c: ExamClient, raw: Raw, now: Time)
    ensures CheckChain(env, w, c, raw, now).db.events == w.db.events
  {
  }

  lemma DeliverKeepsFinal(env: Env, w: World, c: ExamClient, raw: Raw, id: Id, cell: CheatingState, now: Time)
    requires Owned(w) && Final(w) && c in w.clients
    ensures Final(Deliver(env, w, c, raw, id, cell, now))
  {
    var decoded := env.decode(raw);
    if decoded.Some? {
      var w1 := CheckChain(env, w, c, raw, now);
      CheckChainFrame(env, w, c, raw, now);
      CheckChainSameOwners(env, w, c, raw, now);
      FrameKeepsFinal(w, w1);
      var w2 := Dispatch(env, w1, c, decoded.value, id, cell, now);
      if ReplyStatus(env, w1, c, decoded.value, id) == 0 {
        match decoded.value
        case Login(name, runId) => LoginKeepsFinal(w1, c, name, runId, cell, now);
        case TeacherLogin(_, _, _) => FrameKeepsFinal(w1, w2);
        case Event(event, detail) => EventKeepsFinal(env, w1, c, event, detail, id, now);
        case Unknown =>
      }
      StartChainSameTables(env, w2, c, raw);
      FrameKeepsFinal(w2, StartChain(env, w2, c, raw));
    }
  }

  /** Every action but a message keeps the marks, and adds no event. */
  lemma OtherActionFrame(env: Env, w: World, a: Action)
    requires !a.Message?
    ensures MarksKept(w, Act(env, w, a))
    ensures Act(env, w, a).db.events == w.db.events || Shrunk(w.db.events, Act(env, w, a).db.events)
    ensures !a.DeleteExamAction? && !a.DeleteRunAction? ==> Act(env, w, a).db.events == w.db.events
  {
    if TableAction(a) {
      TableActionFrame(env, w, a);
      TableActionEvents(env, w, a);
    } else if a.HeartbeatTick? {
      HeartbeatsSameRows(w);
    } else if a.ClearFlagsAction? {
      ClearSameRows(w, a.studentId);
    } else if a.ExpiryTick? {
      ExpiryRestatuses(w);
    } else if a.SetStatusAction? {
      SetStatusRestatuses(w, a.runId, a.status);
    }
  }

  lemma TableActionEvents(env: Env, w: World, a: Action)
    requires TableAction(a)
    ensures Act(env, w, a).db.events == w.db.events || Shrunk(w.db.events, Act(env, w, a).db.events)
    ensures !a.DeleteExamAction? && !a.DeleteRunAction? ==> Act(env, w, a).db.events == w.db.events
  {
  }

  lemma NextKeepsFinal(env: Env, w: World, step: Step)
    requires Owned(w) && Final(w)
    ensures Final(Next(env, w, step))
  {
    var v := w.(now := step.now);
    SameOwnersKeepOwned(w, v);
    FrameKeepsFinal(w, v);
    if step.action.Message? {
      if step.action.c in v.clients {
        DeliverKeepsFinal(env, v, step.action.c, step.action.raw, step.action.id, step.action.cell, v.now);
      }
    } else {
      OtherActionFrame(env, v, step.action);
      FrameKeepsFinal(v, Next(env, w, step));
    }
  }

  /** In every reachable state a student's rows are all finish rows from the first finish row on. */
  lemma {:induction false} ReachableFinal(env: Env, steps: seq<Step>)
    requires LegalRun(env, START, steps)
    ensures Final(Exec(env, START, steps))
  {
    if steps == [] {
    } else {
      var n := |steps| - 1;
      ReachableFinal(env, steps[..n]);
      ReachableOwned(env, steps[..n]);
      NextKeepsFinal(env, Exec(env, START, steps[..n]), steps[n]);
    }
  }

  // ---------------------------------------------------------------- whole runs after a finish

  /** The row a step adds, when it is an accepted event. */
  ghost function Accepted(env: Env, w: World, step: Step): Option<EventRow> {
    if step.action.Message? && step.action.c in w.clients && env.decode(step.action.raw).Some? then
      var call, v := env.decode(step.action.raw).value, w.clients[step.action.c];
      if call.Event? && EventStatus(w, step.action.c, call.event, step.action.id) == 0
      then Some(EventRow(step.action.id, v.studentId, v.runId, call.event, step.now))
      else None
    else None
  }

  function AcceptedCall(w: World, c: ExamClient, call: Call, id: Id, now: Time): seq<EventRow>
    requires c in w.clients
  {
    if call.Event? && EventStatus(w, c, call.event, id) == 0
    then [EventRow(id, w.clients[c].studentId, w.clients[c].runId, call.event, now)]
    else []
  }

  lemma DispatchAppends(env: Env, w: World, c: ExamClient, call: Call, id: Id, cell: CheatingState, now: Time)
    requires c in w.clients
    ensures Dispatch(env, w, c, call, id, cell, now).db.events == w.db.events + AcceptedCall(w, c, call, id, now)
  {
    if call.Event? {
      EventRows(env, w, c, call.event, call.detail, id, now);
    }
  }

  /** What a message appends to the table is its accepted event, and nothing when none is accepted. */
  lemma AcceptedIsAppended(env: Env, w: World, step: Step)
    requires step.action.Message? && step.action.c in w.clients
    ensures Next(env, w, step).db.events ==
            w.db.events + match Accepted(env, w, step) { case Some(row) => [row] case None => [] }
  {
    var v := w.(now := step.now);
    var c, raw := step.action.c, step.action.raw;
    if env.decode(raw).Some? {
      var call := env.decode(raw).value;
      var w1 := CheckChain(env, v, c, raw, v.now);
      CheckChainFrame(env, v, c, raw, v.now);
      CheckChainSameRows(env, v, c, raw, v.now);
      CheckChainSameOwners(env, v, c, raw, v.now);
      assert AcceptedCall(w1, c, call, step.action.id, v.now) == AcceptedCall(w, c, call, step.action.id, step.now);
      DispatchAppends(env, w1, c, call, step.action.id, step.action.cell, v.now);
      StartChainSameTables(env, Dispatch(env, w1, c, call, step.action.id, step.action.cell, v.now), c, raw);
    }
  }

  /** Every event row belongs to a student that has a monitor. */
  ghost predicate Heard(w: World) {
    forall row :: row in w.db.events ==> row.studentId != "" && row.studentId in w.states
  }

  lemma NextKeepsHeard(env: Env, w: World, step: Step)
    requires Owned(w) && Heard(w)
    ensures Heard(Next(env, w, step))
  {
    NextKeepsStates(env, w, step);
    var w' := Next(env, w, step);
    if step.action.Message? {
      if step.action.c in w.clients {
        assert ClientOwned(w, w.clients[step.action.c]);
        AcceptedIsAppended(env, w, step);
      }
    } else {
      OtherActionFrame(env, w.(now := step.now), step.action);
    }
    assert forall row :: row in w'.db.events && row in w.db.events ==> row.studentId != "" && row.studentId in w'.states;
  }

  lemma {:induction false} ReachableHeard(env: Env, steps: seq<Step>)
    requires LegalRun(env, START, steps)
    ensures Heard(Exec(env, START, steps))
  {
    if steps == [] {
    } else {
      var n := |steps| - 1;
      ReachableHeard(env, steps[..n]);
      ReachableOwned(env, steps[..n]);
      NextKeepsHeard(env, Exec(env, START, steps[..n]), steps[n]);
    }
  }

  /** All that the run accepts for this student from here on is finish events. */
  ghost predicate OnlyFinishes(env: Env, w: World, steps: seq<Step>, sid: Id) {
    steps != [] ==>
      var n := |steps| - 1;
      var row := Accepted(env, Exec(env, w, steps[..n]), steps[n]);
      && OnlyFinishes(env, w, steps[..n], sid)
      && (row.Some? && row.value.studentId == sid ==> row.value.event == STUDENT_FINISHED)
  }

  /** The student cannot log in any more, and its connections are marked. */
  ghost predicate Retired(w: World, sid: Id) {
    && sid in w.states && sid != ""
    && (sid in w.db.students ==> HasFinished(w.db.events, sid))
    && (forall c :: c in w.clients && w.clients[c].studentId == sid ==> w.clients[c].finished)
  }

  predicate Deletes(step: Step) {
    step.action.DeleteExamAction? || step.action.DeleteRunAction?
  }

  ghost predicate NoDeletes(steps: seq<Step>) {
    forall i :: 0 <= i < |steps| ==> !Deletes(steps[i])
  }

  /** The runs a step deletes. */
  function GoneRuns(db: Db, step: Step): set<Id> {
    if step.action.DeleteExamAction? && step.action.id != "" && step.action.id in db.exams then RunsOf(db, step.action.id)
    else if step.action.DeleteRunAction? && step.action.id != "" && step.action.id in db.runs then {step.action.id}
    else {}
  }

  /** The step deletes every finish row of the student and leaves the student. */
  ghost predicate Reopens(db: Db, step: Step, sid: Id) {
    && HasFinished(db.events, sid)
    && sid in db.students && db.students[sid].runId !in GoneRuns(db, step)
    && (forall row :: row in db.events && FinishedRow(row, sid) ==> row.runId in GoneRuns(db, step))
  }

  lemma DeletionForgetsIff(events: seq<EventRow>, gone: set<Id>, sid: Id)
    ensures HasFinished(WithoutRuns(events, gone), sid) <==>
            exists row :: row in events && FinishedRow(row, sid) && row.runId !in gone
  {
    var kept := WithoutRuns(events, gone);
    if HasFinished(kept, sid) {
      var i :| 0 <= i < |kept| && FinishedRow(kept[i], sid);
      assert kept[i] in events;
    }
    if row :| row in events && FinishedRow(row, sid) && row.runId !in gone {
      assert row in kept;
      var j :| 0 <= j < |kept| && kept[j] == row;
      assert FinishedRow(kept[j], sid);
    }
  }

  lemma DispatchKeepsRetired(env: Env, w: World, c: ExamClient, call: Call, id: Id, cell: CheatingState, now: Time, sid: Id)
    requires Retired(w, sid) && c in w.clients
    ensures Retired(Dispatch(env, w, c, call, id, cell, now), sid)
  {
    if ReplyStatus(env, w, c, call, id) == 0 {
      match call
      case Login(name, runId) => assert FindStudent(w.db, runId, name).value != sid;
      case TeacherLogin(_, _, _) =>
      case Event(event, detail) =>
        EventRows(env, w, c, event, detail, id, now);
        EventSameOwners(env, w, c, event, detail, id, now);
        HasFinishedAfter(w.db.events, EventRow(id, w.clients[c].studentId, w.clients[c].runId, event, now), sid);
      case Unknown =>
    }
  }

  lemma DeliverKeepsRetired(env: Env, w: World, c: ExamClient, raw: Raw, id: Id, cell: CheatingState, now: Time, sid: Id)
    requires Retired(w, sid) && c in w.clients
    ensures Retired(Deliver(env, w, c, raw, id, cell, now), sid)
  {
    var decoded := env.decode(raw);
    if decoded.Some? {
      var w1 := CheckChain(env, w, c, raw, now);
      CheckChainFrame(env, w, c, raw, now);
      CheckChainSameOwners(env, w, c, raw, now);
      assert Retired(w1, sid);
      DispatchKeepsRetired(env, w1, c, decoded.value, id, cell, now, sid);
      var w2 := Dispatch(env, w1, c, decoded.value, id, cell, now);
      StartChainSameTables(env, w2, c, raw);
    }
  }

  lemma DeletesKeepRetiredIff(env: Env, w: World, step: Step, sid: Id)
    requires Retired(w, sid) && Deletes(step)
    ensures Retired(Act(env, w, step.action), sid) <==> !Reopens(w.db, step, sid)
  {
    var gone, w' := GoneRuns(w.db, step), Act(env, w, step.action);
    DeletionForgetsIff(w.db.events, gone, sid);
    HasFinishedRow(w.db.events, sid);
    if gone == {} {
      NothingGone(env, w, step);
    } else {
      assert w'.db.events == WithoutRuns(w.db.events, gone);
      assert sid in w'.db.students <==> sid in w.db.students && w.db.students[sid].runId !in gone;
    }
  }

  lemma HasFinishedRow(events: seq<EventRow>, sid: Id)
    ensures HasFinished(events, sid) <==> exists row :: row in events && FinishedRow(row, sid)
  {
    if HasFinished(events, sid) {
      var i :| 0 <= i < |events| && FinishedRow(events[i], sid);
      assert events[i] in events;
    }
    if row :| row in events && FinishedRow(row, sid) {
      var j :| 0 <= j < |events| && events[j] == row;
      assert FinishedRow(events[j], sid);
    }
  }

  /** A deletion of no runs touches neither students nor events. */
  lemma NothingGone(env: Env, w: World, step: Step)
    requires Deletes(step) && GoneRuns(w.db, step) == {}
    ensures Act(env, w, step.action).db.students == w.db.students && Act(env, w, step.action).db.events == w.db.events
  {
    if step.action.DeleteExamAction? {
      NothingWithout(w.db.events);
      NoStudentGone(w.db);
      assert step.action.id != "" && step.action.id in w.db.exams ==> RunsOf(w.db, step.action.id) == {};
    } else {
      assert step.action.id in GoneRuns(w.db, step) || step.action.id == "" || step.action.id !in w.db.runs;
    }
  }

  lemma NoStudentGone(db: Db)
    ensures DeleteStudents(DeleteEvents(db, {}), {}).students == db.students
  {
  }

  lemma {:induction false} NothingWithout(events: seq<EventRow>)
    ensures WithoutRuns(events, {}) == events
  {
    if events == [] {
    } else {
      NothingWithout(events[..|events| - 1]);
      SplitLast([], events);
    }
  }

  /** A retired student stays retired exactly when the step does not delete its finish rows without the student. */
  lemma NextKeepsRetiredIff(env: Env, w: World, step: Step, sid: Id)
    requires Retired(w, sid) && Legal(w, step)
    ensures Retired(Next(env, w, step), sid) <==> !Reopens(w.db, step, sid)
  {
    var v := w.(now := step.now);
    if Deletes(step) {
      DeletesKeepRetiredIff(env, v, step, sid);
    } else {
      HasFinishedRow(w.db.events, sid);
      KeepsRetired(env, v, step, sid);
    }
  }

  lemma KeepsRetired(env: Env, w: World, step: Step, sid: Id)
    requires Retired(w, sid) && Legal(w, step) && !Deletes(step)
    ensures Retired(Act(env, w, step.action), sid)
  {
    match step.action
    case Message(c, raw, id, cell) => DeliverKeepsRetired(env, w, c, raw, id, cell, w.now, sid);
    case _ =>
      OtherActionFrame(env, w, step.action);
      OtherActionStudents(env, w, step.action);
  }

  lemma OtherActionStudents(env: Env, w: World, a: Action)
    requires !a.Message?
    ensures Act(env, w, a).states == w.states
    ensures forall s :: s in Act(env, w, a).db.students && s !in w.db.students ==> a.RegisterStudentAction? && s == a.id
  {
    if TableAction(a) {
      TableActionFrame(env, w, a);
    } else if !ConnectionAction(a) {
      OtherActionSameOwners(env, w, a);
    }
  }

  /** The student is retired in every state of the run. */
  ghost predicate AlwaysRetired(env: Env, w: World, steps: seq<Step>, sid: Id) {
    Retired(Exec(env, w, steps), sid) && (steps != [] ==> AlwaysRetired(env, w, steps[..|steps| - 1], sid))
  }

  ghost predicate NeverReopens(env: Env, w: World, steps: seq<Step>, sid: Id) {
    steps != [] ==>
      var n := |steps| - 1;
      NeverReopens(env, w, steps[..n], sid) && !Reopens(Exec(env, w, steps[..n]).db, steps[n], sid)
  }

  /** A student stays retired over a run exactly when no deletion of the run reopens it. */
  lemma {:induction false} RetiredRunIff(env: Env, w: World, steps: seq<Step>, sid: Id)
    requires Retired(w, sid) && LegalRun(env, w, steps)
    ensures AlwaysRetired(env, w, steps, sid) <==> NeverReopens(env, w, steps, sid)
  {
    if steps == [] {
    } else {
      var n := |steps| - 1;
      RetiredRunIff(env, w, steps[..n], sid);
      if AlwaysRetired(env, w, steps[..n], sid) {
        NextKeepsRetiredIff(env, Exec(env, w, steps[..n]), steps[n], sid);
      }
    }
  }

  /** Nothing but finish events is accepted from the connections of a retired student. */
  lemma {:induction false} RetiredOnlyFinishes(env: Env, w: World, steps: seq<Step>, sid: Id)
    requires AlwaysRetired(env, w, steps, sid)
    ensures OnlyFinishes(env, w, steps, sid)
  {
    if steps == [] {
    } else {
      var n := |steps| - 1;
      RetiredOnlyFinishes(env, w, steps[..n], sid);
      assert Retired(Exec(env, w, steps[..n]), sid);
    }
  }

  lemma FinishedIsRetired(env: Env, past: seq<Step>, sid: Id)
    requires LegalRun(env, START, past) && HasFinished(Exec(env, START, past).db.events, sid)
    ensures Retired(Exec(env, START, past), sid)
  {
    var w := Exec(env, START, past);
    ReachableFinal(env, past);
    ReachableHeard(env, past);
    HasFinishedRow(w.db.events, sid);
  }

  /**
   Once a student has a finish row, it stays unable to log in, with all its connections marked, exactly when no
   deletion takes its finish rows and leaves the student; and then every event the server accepts for it is a finish
   event, whatever connections and logins follow.
   */
  lemma FinishIsFinalIff(env: Env, past: seq<Step>, future: seq<Step>, sid: Id)
    requires LegalRun(env, START, past)
    requires LegalRun(env, Exec(env, START, past), future)
    requires HasFinished(Exec(env, START, past).db.events, sid)
    ensures
      var w := Exec(env, START, past);
      && (AlwaysRetired(env, w, future, sid) <==> NeverReopens(env, w, future, sid))
      && (NeverReopens(env, w, future, sid) ==> OnlyFinishes(env, w, future, sid))
  {
    var w := Exec(env, START, past);
    FinishedIsRetired(env, past, sid);
    RetiredRunIff(env, w, future, sid);
    if NeverReopens(env, w, future, sid) {
      RetiredOnlyFinishes(env, w, future, sid);
    }
  }

  /** With sound events, a student's finish rows go only with the student. */
  lemma SoundNeverReopens(db: Db, step: Step, sid: Id)
    requires EventsOwned(db)
    ensures !Reopens(db, step, sid)
  {
    HasFinishedRow(db.events, sid);
    if HasFinished(db.events, sid) {
      var row :| row in db.events && FinishedRow(row, sid);
      assert RowOwned(db, row.studentId, row.runId);
    }
  }

  lemma {:induction false} NoDeletesNeverReopens(env: Env, w: World, steps: seq<Step>, sid: Id)
    requires NoDeletes(steps)
    ensures NeverReopens(env, w, steps, sid)
  {
    if steps == [] {
    } else {
      var n := |steps| - 1;
      NoDeletesNeverReopens(env, w, steps[..n], sid);
      assert !Deletes(steps[n]);
      HasFinishedRow(Exec(env, w, steps[..n]).db.events, sid);
    }
  }

  lemma {:induction false} DbSoundNeverReopens(env: Env, w: World, steps: seq<Step>, sid: Id)
    requires AlwaysDbSound(env, w, steps)
    ensures NeverReopens(env, w, steps, sid)
  {
    if steps == [] {
    } else {
      var n := |steps| - 1;
      DbSoundNeverReopens(env, w, steps[..n], sid);
      assert AlwaysDbSound(env, w, steps[..n]);
      SoundNeverReopens(Exec(env, w, steps[..n]).db, steps[n], sid);
    }
  }

  /**
   In particular finishing is final in any run without deletions, and in any run in which no event is accepted off
   its student's run.
   */
  lemma FinishIsFinal(env: Env, past: seq<Step>, future: seq<Step>, sid: Id)
    requires LegalRun(env, START, past)
    requires LegalRun(env, Exec(env, START, past), future)
    requires HasFinished(Exec(env, START, past).db.events, sid)
    requires NoDeletes(future) || (NeverOffRun(env, START, past) && NeverOffRun(env, Exec(env, START, past), future))
    ensures OnlyFinishes(env, Exec(env, START, past), future, sid)
  {
    var w := Exec(env, START, past);
    if NoDeletes(future) {
      NoDeletesNeverReopens(env, w, future, sid);
    } else {
      RunDbSoundIff(env, START, past);
      RunDbSoundIff(env, w, future);
      DbSoundNeverReopens(env, w, future, sid);
    }
    FinishIsFinalIff(env, past, future, sid);
  }
}
