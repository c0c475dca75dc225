/** What the server writes down: statistics, scores, and the life of an exam run. */
module Records {
  import opened Basics
  import opened Chain
  import opened CheatingEngine
  import opened Database
  import opened Protocol
  import opened Ownership
  import opened Integrity
  import opened Finality

  // ---------------------------------------------------------------- statistics

  /** The parts of a monitor that must not be lost when the server stops. */
  predicate SameRecord(stored: Monitor, m: Monitor) {
    && stored.flags == m.flags && stored.score == m.score
    && stored.connected == m.connected && stored.studentName == m.studentName
  }

  predicate RowUpToDate(w: World, sid: Id)
    requires sid in w.db.students
  {
    match w.db.students[sid].stats
    case None => sid !in w.states
    case Some(stored) => sid in w.states && w.states[sid] in w.monitors && SameRecord(stored, w.monitors[w.states[sid]])
  }

  /** Every student's row holds the record of the student's monitor; every score is the flags' weight. */
  ghost predicate Recorded(w: World) {
    && (forall sid :: sid in w.db.students ==> RowUpToDate(w, sid))
    && (forall s :: s in w.monitors ==> Scored(w.monitors[s]))
  }

  /** `after` is `before` with more flags, or with the same record. */
  predicate Extends(before: Monitor, after: Monitor) {
    && after.studentId == before.studentId && Scored(after)
    && (|after.flags| > |before.flags| || SameRecord(before, after))
  }

  /** A monitor stored together with its row. */
  lemma StoreKeepsRecorded(w: World, s: CheatingState, m: Monitor)
    requires MapOwned(w) && Recorded(w) && s in w.monitors && m.studentId == w.monitors[s].studentId && Scored(m)
    ensures Recorded(PutMonitor(w, s, m).(db := SaveStats(w.db, m)))
  {
    var w' := PutMonitor(w, s, m).(db := SaveStats(w.db, m));
    forall sid | sid in w'.db.students ensures RowUpToDate(w', sid) {
      assert RowUpToDate(w, sid);
      assert sid in w.states ==> w.monitors[w.states[sid]].studentId == sid;
    }
  }

  lemma RecordKeepsRecorded(w: World, s: CheatingState, after: Monitor)
    requires MapOwned(w) && Recorded(w) && s in w.monitors && Extends(w.monitors[s], after)
    ensures Recorded(Record(w, s, w.monitors[s], after))
  {
    if |after.flags| > |w.monitors[s].flags| {
      StoreKeepsRecorded(w, s, after);
    } else {
      SameRecordsKeepRecorded(w, PutMonitor(w, s, after));
    }
  }

  lemma AddNoticesExtends(m: Monitor, ns: seq<Notice>, now: Time)
    requires Scored(m)
    ensures Extends(m, AddNotices(m, ns, now))
  {
    AddKeepsScored(m, ns, now);
    if ns == [] {
      assert m.flags + Stamp(ns, now) == m.flags;
    }
  }

  lemma CheckChainKeepsRecorded(env: Env, w: World, c: ExamClient, raw: Raw, now: Time)
    requires MapOwned(w) && Recorded(w)
    ensures Recorded(CheckChain(env, w, c, raw, now))
  {
    if Watched(w, c) {
      var m := MonitorOf(w, c);
      AddNoticesExtends(m, ChainNotices(Verify(m.link, env.wire.header(raw))), now);
      RecordKeepsRecorded(w, w.clients[c].cheating, Verified(m, env.wire, raw, now));
    }
  }

  lemma EventKeepsRecorded(env: Env, w: World, c: ExamClient, event: string, detail: Detail, id: Id, now: Time)
    requires MapOwned(w) && Recorded(w) && c in w.clients
    ensures Recorded(DoEvent(env, w, c, event, detail, id, now))
  {
    var v, done := w.clients[c], event == STUDENT_FINISHED;
    var row := EventRow(id, v.studentId, v.runId, event, now);
    var w1 := PutClient(w.(db := w.db.(events := w.db.events + [row])), c, v.(finished := v.finished || done));
    forall sid | sid in w1.db.students ensures RowUpToDate(w1, sid) {
      assert RowUpToDate(w, sid);
    }
    if Watched(w1, c) {
      var m := MonitorOf(w1, c);
      AddNoticesExtends(m.(finished := m.finished || done), EventNotices(env.lower, event, detail), now);
      RecordKeepsRecorded(w1, v.cheating, Updated(m.(finished := m.finished || done), env.lower, event, detail, now));
    }
  }

  lemma LoginKeepsRecorded(w: World, c: ExamClient, name: string, runId: Id, cell: CheatingState, now: Time)
    requires Owned(w) && Recorded(w) && c in w.clients && cell !in w.monitors
    requires LoginStatus(w, c, name, runId) == 0
    ensures Recorded(DoLogin(w, c, FindStudent(w.db, runId, name).value, cell, now))
  {
    var found := FindStudent(w.db, runId, name).value;
    var w' := DoLogin(w, c, found, cell, now);
    forall sid | sid in w'.db.students ensures RowUpToDate(w', sid) {
      assert RowUpToDate(w, sid);
      assert sid in w.states ==> w.monitors[w.states[sid]].studentId == sid;
    }
  }

  /** Only links and finished marks of monitors moved. */
  ghost predicate SameRecords(w: World, w': World) {
    && w'.states == w.states && w'.db.students == w.db.students
    && w'.monitors.Keys == w.monitors.Keys
    && (forall s :: s in w.monitors ==> SameRecord(w.monitors[s], w'.monitors[s]))
  }

  lemma SameRecordsKeepRecorded(w: World, w': World)
    requires Recorded(w) && SameRecords(w, w')
    ensures Recorded(w')
  {
    forall sid | sid in w'.db.students ensures RowUpToDate(w', sid) {
      assert RowUpToDate(w, sid);
    }
  }

  lemma DeliverKeepsRecorded(env: Env, w: World, c: ExamClient, raw: Raw, id: Id, cell: CheatingState, now: Time)
    requires Owned(w) && Recorded(w) && c in w.clients && cell !in w.monitors
    ensures Recorded(Deliver(env, w, c, raw, id, cell, now))
  {
    var decoded := env.decode(raw);
    if decoded.Some? {
      var w1 := CheckChain(env, w, c, raw, now);
      CheckChainSameOwners(env, w, c, raw, now);
      SameOwnersKeepOwned(w, w1);
      CheckChainKeepsRecorded(env, w, c, raw, now);
      DispatchKeepsRecorded(env, w1, c, decoded.value, id, cell, now);
      var w2 := Dispatch(env, w1, c, decoded.value, id, cell, now);
      StartChainSameRecords(env, w2, c, raw);
      SameRecordsKeepRecorded(w2, StartChain(env, w2, c, raw));
    }
  }

  lemma StartChainSameRecords(env: Env, w: World, c: ExamClient, raw: Raw)
    ensures SameRecords(w, StartChain(env, w, c, raw))
  {
  }

  lemma DispatchKeepsRecorded(env: Env, w: World, c: ExamClient, call: Call, id: Id, cell: CheatingState, now: Time)
    requires Owned(w) && Recorded(w) && c in w.clients && cell !in w.monitors
    ensures Recorded(Dispatch(env, w, c, call, id, cell, now))
  {
    if ReplyStatus(env, w, c, call, id) == 0 {
      match call
      case Login(name, runId) => LoginKeepsRecorded(w, c, name, runId, cell, now);
      case Event(event, detail) => EventKeepsRecorded(env, w, c, event, detail, id, now);
      case TeacherLogin(name, _, runId) =>
        SameRecordsKeepRecorded(w, DoTeacherLogin(w, c, TeacherNamed(w.db.teachers, name).value, runId));
      case Unknown =>
    }
  }

  lemma HeartbeatsKeepRecorded(w: World)
    requires MapOwned(w) && Recorded(w)
    ensures Recorded(DoHeartbeats(w))
  {
    var w' := DoHeartbeats(w);
    forall s | s in w'.monitors ensures Scored(w'.monitors[s]) {
      AddNoticesExtends(w.monitors[s], [Notice(StudentDisconnected, Medium)], w.now);
    }
    forall sid | sid in w'.db.students ensures RowUpToDate(w', sid) {
      assert RowUpToDate(w, sid);
    }
  }

  lemma ClearKeepsRecorded(w: World, sid: Id)
    requires MapOwned(w) && Recorded(w)
    ensures Recorded(DoClear(w, sid))
  {
    if sid in w.states {
      StoreKeepsRecorded(w, w.states[sid], w.monitors[w.states[sid]].(flags := [], score := 0));
    } else {
      ClearRowKeepsRecorded(w, sid);
    }
  }

  lemma ClearRowKeepsRecorded(w: World, sid: Id)
    requires Recorded(w) && sid !in w.states
    ensures Recorded(w.(db := ClearStats(w.db, sid)))
  {
    var w' := w.(db := ClearStats(w.db, sid));
    forall t | t in w'.db.students ensures RowUpToDate(w', t) {
      assert RowUpToDate(w, t);
    }
  }

  lemma TablesKeepRecorded(env: Env, w: World, a: Action)
    requires Recorded(w) && TableAction(a)
    requires a.RegisterStudentAction? ==> a.id !in w.states
    ensures Recorded(Act(env, w, a))
  {
    var w' := Act(env, w, a);
    TableActionFrame(env, w, a);
    forall sid | sid in w'.db.students ensures RowUpToDate(w', sid) {
      assert sid in w.db.students ==> RowUpToDate(w, sid);
    }
  }

  lemma QuietSameRecords(env: Env, w: World, a: Action)
    requires a.Connect? || a.Disconnect? || EndingAction(a)
    ensures SameRecords(w, Act(env, w, a))
  {
    QuietMonitors(env, w, a);
  }

  lemma NextKeepsRecorded(env: Env, w: World, step: Step)
    requires Owned(w) && Recorded(w) && Legal(w, step)
    ensures Recorded(Next(env, w, step))
  {
    var v, a := w.(now := step.now), step.action;
    SameOwnersKeepOwned(w, v);
    SameRecordsKeepRecorded(w, v);
    if a.Message? {
      DeliverKeepsRecorded(env, v, a.c, a.raw, a.id, a.cell, v.now);
    } else if a.HeartbeatTick? {
      HeartbeatsKeepRecorded(v);
    } else if a.ClearFlagsAction? {
      ClearKeepsRecorded(v, a.studentId);
    } else if TableAction(a) {
      TablesKeepRecorded(env, v, a);
    } else {
      QuietSameRecords(env, v, a);
      SameRecordsKeepRecorded(v, Act(env, v, a));
    }
  }

  lemma {:induction false} ExecKeepsRecorded(env: Env, w: World, steps: seq<Step>)
    requires Owned(w) && Recorded(w) && LegalRun(env, w, steps)
    ensures Recorded(Exec(env, w, steps))
  {
    if steps == [] {
    } else {
      var n := |steps| - 1;
      ExecKeepsRecorded(env, w, steps[..n]);
      ExecKeepsOwned(env, w, steps[..n]);
      NextKeepsRecorded(env, Exec(env, w, steps[..n]), steps[n]);
    }
  }

  /** In every reachable state the tables hold every flag on record, and the scores are the weights of the flags. */
  lemma ReachableRecorded(env: Env, steps: seq<Step>)
    requires LegalRun(env, START, steps)
    ensures Recorded(Exec(env, START, steps))
  {
    ExecKeepsRecorded(env, START, steps);
  }

  // ---------------------------------------------------------------- the life of a run

  predicate Timed(run: ExamRun, now: Time) {
    && (run.status == Running ==> run.startedAt.Some?)
    && (run.startedAt.Some? ==> run.startedAt.value <= now)
    && (run.endedAt.Some? ==> run.endedAt.value <= now)
    && (run.status == Finished ==>
          run.endedAt.Some? && (run.startedAt.Some? ==> run.startedAt.value <= run.endedAt.value))
  }

  ghost predicate AllTimed(w: World) {
    forall r :: r in w.db.runs ==> Timed(w.db.runs[r], w.now)
  }

  lemma DispatchSameRuns(env: Env, w: World, c: ExamClient, call: Call, id: Id, cell: CheatingState, now: Time)
    requires c in w.clients
    ensures Dispatch(env, w, c, call, id, cell, now).db.runs == w.db.runs
    ensures Dispatch(env, w, c, call, id, cell, now).db.exams == w.db.exams
    ensures Dispatch(env, w, c, call, id, cell, now).now == w.now
  {
    if call.Event? {
      EventRows(env, w, c, call.event, call.detail, id, now);
    }
  }

  lemma MessageSameRuns(env: Env, w: World, c: ExamClient, raw: Raw, id: Id, cell: CheatingState, now: Time)
    requires c in w.clients
    ensures Deliver(env, w, c, raw, id, cell, now).db.runs == w.db.runs
    ensures Deliver(env, w, c, raw, id, cell, now).db.exams == w.db.exams
    ensures Deliver(env, w, c, raw, id, cell, now).now == w.now
  {
    if env.decode(raw).Some? {
      var call := env.decode(raw).value;
      var w1 := CheckChain(env, w, c, raw, now);
      CheckChainSameRows(env, w, c, raw, now);
      CheckChainSameOwners(env, w, c, raw, now);
      DispatchSameRuns(env, w1, c, call, id, cell, now);
      StartChainSameTables(env, Dispatch(env, w1, c, call, id, cell, now), c, raw);
    }
  }

  /** Only run steps and checkers touch the runs; only updates touch the exams. */
  lemma OtherActionSameRuns(env: Env, w: World, a: Action)
    requires a.Connect? || a.Disconnect? || a.HeartbeatTick? || a.ClearFlagsAction? || a.RegisterTeacherAction?
          || a.RegisterStudentAction?
    ensures Act(env, w, a).db.runs == w.db.runs && Act(env, w, a).db.exams == w.db.exams && Act(env, w, a).now == w.now
  {
    match a
    case HeartbeatTick => HeartbeatsSameRows(w);
    case ClearFlagsAction(sid) => ClearSameRows(w, sid);
    case _ =>
  }

  lemma ExpiryKeepsTimed(w: World)
    requires AllTimed(w)
    ensures AllTimed(DoExpiry(w)) && DoExpiry(w).now == w.now
  {
  }

  lemma SetStatusKeepsTimed(w: World, runId: Id, status: Option<RunStatus>)
    requires AllTimed(w)
    ensures AllTimed(DoSetStatus(w, runId, status)) && DoSetStatus(w, runId, status).now == w.now
  {
  }

  lemma RunTableKeepsTimed(env: Env, w: World, a: Action)
    requires AllTimed(w) && (a.CreateRunAction? || a.DeleteRunAction?)
    ensures AllTimed(Act(env, w, a)) && Act(env, w, a).now == w.now
  {
  }

  lemma ExamActionKeepsTimed(env: Env, w: World, a: Action)
    requires AllTimed(w)
    requires a.CreateExamAction? || a.UpdateExamAction? || a.DeleteExamAction?
    ensures AllTimed(Act(env, w, a)) && Act(env, w, a).now == w.now
  {
  }

  lemma NextKeepsTimed(env: Env, w: World, step: Step)
    requires AllTimed(w) && step.now >= w.now
    ensures AllTimed(Next(env, w, step)) && Next(env, w, step).now == step.now
  {
    var v, a := w.(now := step.now), step.action;
    assert AllTimed(v);
    if a.Message? {
      if a.c in v.clients { MessageSameRuns(env, v, a.c, a.raw, a.id, a.cell, v.now); }
    } else if a.ExpiryTick? {
      ExpiryKeepsTimed(v);
    } else if a.SetStatusAction? {
      SetStatusKeepsTimed(v, a.runId, a.status);
    } else if a.CreateRunAction? || a.DeleteRunAction? {
      RunTableKeepsTimed(env, v, a);
    } else if a.CreateExamAction? || a.UpdateExamAction? || a.DeleteExamAction? {
      ExamActionKeepsTimed(env, v, a);
    } else {
      OtherActionSameRuns(env, v, a);
    }
  }

  /** A step sets the clock, and nothing else does. */
  lemma NextSetsClock(env: Env, w: World, step: Step)
    ensures Next(env, w, step).now == step.now
  {
    var v, a := w.(now := step.now), step.action;
    if a.Message? {
      if a.c in v.clients { MessageSameRuns(env, v, a.c, a.raw, a.id, a.cell, v.now); }
    } else if TableAction(a) {
      TableActionFrame(env, v, a);
    }
  }

  /** In every reachable state a running run has started, and a finished one has ended, after it started. */
  lemma {:induction false} ReachableTimed(env: Env, steps: seq<Step>)
    requires LegalRun(env, START, steps)
    ensures AllTimed(Exec(env, START, steps))
  {
    if steps == [] {
    } else {
      var n := |steps| - 1;
      ReachableTimed(env, steps[..n]);
      NextKeepsTimed(env, Exec(env, START, steps[..n]), steps[n]);
    }
  }

  /** The clock a student sees agrees with the checker: an expired run shows no time left. */
  lemma ExpiredShowsNoTime(db: Db, runId: Id, now: Time)
    ensures Expired(db, runId, now) ==> RemainingSeconds(db, runId, now) == 0
    ensures RemainingSeconds(db, runId, now) > 0 ==> !Expired(db, runId, now)
    ensures RemainingSeconds(db, runId, now) >= 0
  {
  }

  /** The seconds shown are the whole seconds left until the end, and none when the end has passed. */
  lemma RemainingIsExact(db: Db, runId: Id, now: Time)
    requires runId in db.runs && db.runs[runId].startedAt.Some? && SettingsOf(db, runId).examDuration > 0
    requires EndsAt(db.runs[runId].startedAt.value, SettingsOf(db, runId).examDuration) - now <= INT64_MAX
    ensures
      var left := EndsAt(db.runs[runId].startedAt.value, SettingsOf(db, runId).examDuration) - now;
      var shown := RemainingSeconds(db, runId, now);
      if left >= 0 then shown * SECOND <= left < (shown + 1) * SECOND else shown == 0
  {
  }

  /** For a duration up to 153722867 minutes, the seconds shown count down from the start of the run. */
  lemma RemainingCountsDown(db: Db, runId: Id, now: Time, started: Time, minutes: Int64)
    requires runId in db.runs && db.runs[runId].startedAt == Some(started) && started <= now
    requires db.runs[runId].examId in db.exams && db.exams[db.runs[runId].examId].settings.examDuration == minutes
    requires 0 < minutes <= 153722867
    ensures
      var left, shown := started + minutes * 60_000_000_000 - now, RemainingSeconds(db, runId, now);
      if left >= 0 then shown * 1_000_000_000 <= left < (shown + 1) * 1_000_000_000 else shown == 0
  {
    MinutesFitIff(minutes);
    RemainingIsExact(db, runId, now);
  }

  /** The longest duration, in minutes, whose product with a minute fits 64 bits. */
  const MAX_MINUTES: int := 153722867

  lemma MinutesFitIff(minutes: Int64)
    requires minutes > 0
    ensures minutes <= MAX_MINUTES ==> Wrap64(minutes * 60 * SECOND) == minutes * 60 * SECOND
    ensures minutes > MAX_MINUTES ==> Wrap64(minutes * 60 * SECOND) < minutes * 60 * SECOND
  {
    var exact := minutes * 60 * SECOND;
    assert exact <= INT64_MAX <==> minutes <= MAX_MINUTES;
    assert Wrap64(exact) <= INT64_MAX;
  }

  /** The checker never closes a run before its whole duration has passed: exactly for durations that do not overflow. */
  lemma RunsLastTheirDurationIff(db: Db, runId: Id)
    requires RunIs(db, runId, Running) && db.runs[runId].startedAt.Some? && db.runs[runId].examId in db.exams
    requires db.exams[db.runs[runId].examId].settings.examDuration > 0
    ensures
      var minutes := db.exams[db.runs[runId].examId].settings.examDuration;
      (forall now :: Expired(db, runId, now) ==> now > db.runs[runId].startedAt.value + minutes * 60_000_000_000)
      <==> minutes <= MAX_MINUTES
  {
    var minutes := db.exams[db.runs[runId].examId].settings.examDuration;
    var started := db.runs[runId].startedAt.value;
    MinutesFitIff(minutes);
    if minutes > MAX_MINUTES {
      var early := EndsAt(started, minutes) + 1;
      assert Expired(db, runId, early) && early <= started + minutes * 60 * SECOND;
    }
  }

  /** After a pass of the expiry checker no run is expired, and only expired runs were closed. */
  lemma ExpiryClosesExactly(w: World)
    ensures forall r :: !Expired(DoExpiry(w).db, r, w.now)
    ensures forall r :: r in w.db.runs ==>
      r in DoExpiry(w).db.runs &&
      DoExpiry(w).db.runs[r] ==
        if Expired(w.db, r, w.now) then w.db.runs[r].(status := Finished, endedAt := Some(w.now)) else w.db.runs[r]
    ensures forall r :: r in w.db.runs && (w.db.runs[r].status != Running || SettingsOf(w.db, r).examDuration <= 0) ==>
      DoExpiry(w).db.runs[r] == w.db.runs[r]
    ensures forall c :: c in w.clients ==>
      c in DoExpiry(w).clients &&
      (DoExpiry(w).clients[c].finished <==>
        w.clients[c].finished || (w.clients[c].role == StudentRole && Expired(w.db, w.clients[c].runId, w.now)))
  {
  }

  predicate Restarts(step: Step, r: Id) {
    step.action == SetStatusAction(r, Some(Running))
  }

  /** A run that is not running is started by a teacher, and by nothing else. */
  lemma OnlyRestartRuns(env: Env, w: World, step: Step, r: Id)
    requires !RunIs(w.db, r, Running) && !Restarts(step, r)
    ensures !RunIs(Next(env, w, step).db, r, Running)
  {
    var v, a := w.(now := step.now), step.action;
    if a.Message? {
      if a.c in v.clients { MessageSameRuns(env, v, a.c, a.raw, a.id, a.cell, v.now); }
    } else if a.ExpiryTick? || a.SetStatusAction? {
      EndingStarts(env, v, a, r);
    } else if TableAction(a) {
      TableStarts(env, v, a, r);
    } else {
      OtherActionSameRuns(env, v, a);
    }
  }

  lemma EndingStarts(env: Env, w: World, a: Action, r: Id)
    requires EndingAction(a) && !RunIs(w.db, r, Running) && a != SetStatusAction(r, Some(Running))
    ensures !RunIs(Act(env, w, a).db, r, Running)
  {
  }

  lemma TableStarts(env: Env, w: World, a: Action, r: Id)
    requires TableAction(a) && !RunIs(w.db, r, Running)
    ensures !RunIs(Act(env, w, a).db, r, Running)
  {
  }

  ghost predicate NeverRestarts(steps: seq<Step>, r: Id) {
    forall i :: 0 <= i < |steps| ==> !Restarts(steps[i], r)
  }

  /** No event of this exam run is accepted. */
  ghost predicate NoneAccepted(env: Env, w: World, steps: seq<Step>, r: Id) {
    steps != [] ==>
      var n := |steps| - 1;
      var row := Accepted(env, Exec(env, w, steps[..n]), steps[n]);
      NoneAccepted(env, w, steps[..n], r) && (row.Some? ==> row.value.runId != r)
  }

  lemma {:induction false} ClosedTakesNoEvents(env: Env, w: World, steps: seq<Step>, r: Id)
    requires !RunIs(w.db, r, Running) && NeverRestarts(steps, r)
    ensures !RunIs(Exec(env, w, steps).db, r, Running) && NoneAccepted(env, w, steps, r)
  {
    if steps == [] {
    } else {
      var n := |steps| - 1;
      ClosedTakesNoEvents(env, w, steps[..n], r);
      assert !Restarts(steps[n], r);
      OnlyRestartRuns(env, Exec(env, w, steps[..n]), steps[n], r);
    }
  }

  /**
   A run that a pass of the expiry checker finds expired is closed by it, and until a teacher starts the run again no
   event of it is accepted on any connection; a run the pass does not find expired is left as it is.
   */
  lemma ExpiryEndsEvents(env: Env, w: World, now: Time, steps: seq<Step>, r: Id)
    requires NeverRestarts(steps, r) && r in w.db.runs
    ensures
      var w' := Next(env, w, At(now, ExpiryTick));
      if Expired(w.db, r, now)
      then !RunIs(Exec(env, w', steps).db, r, Running) && NoneAccepted(env, w', steps, r)
      else r in w'.db.runs && w'.db.runs[r] == w.db.runs[r]
  {
    ExpiryClosesExactly(w.(now := now));
    if Expired(w.db, r, now) {
      ClosedTakesNoEvents(env, Next(env, w, At(now, ExpiryTick)), steps, r);
    }
  }

  /** While a run of an exam is running, no step changes the exam's duration. */
  lemma RunningFixesDuration(env: Env, w: World, step: Step, r: Id)
    requires Legal(w, step) && RunIs(w.db, r, Running) && w.db.runs[r].examId in w.db.exams
    requires r in Next(env, w, step).db.runs && w.db.runs[r].examId in Next(env, w, step).db.exams
    ensures SettingsOf(Next(env, w, step).db, r) == SettingsOf(w.db, r)
  {
    var v, a := w.(now := step.now), step.action;
    if a.Message? {
      MessageSameRuns(env, v, a.c, a.raw, a.id, a.cell, v.now);
    } else if a.ExpiryTick? || a.SetStatusAction? || a.CreateRunAction? || a.DeleteRunAction? {
      RunActionSameExams(env, v, a, r);
    } else if a.CreateExamAction? || a.UpdateExamAction? || a.DeleteExamAction? {
      ExamActionFixesDuration(env, v, a, r);
    } else {
      OtherActionSameRuns(env, v, a);
    }
  }

  lemma RunActionSameExams(env: Env, w: World, a: Action, r: Id)
    requires a.ExpiryTick? || a.SetStatusAction? || a.CreateRunAction? || a.DeleteRunAction?
    requires r in w.db.runs && r in Act(env, w, a).db.runs
    ensures Act(env, w, a).db.exams == w.db.exams && Act(env, w, a).db.runs[r].examId == w.db.runs[r].examId
  {
    if a.ExpiryTick? {
      ExpiryRestatuses(w);
    } else if a.SetStatusAction? {
      SetStatusRestatuses(w, a.runId, a.status);
    } else {
      RunTableSameExams(env, w, a, r);
    }
  }

  lemma RunTableSameExams(env: Env, w: World, a: Action, r: Id)
    requires a.CreateRunAction? || a.DeleteRunAction?
    requires r in w.db.runs && r in Act(env, w, a).db.runs
    ensures Act(env, w, a).db.exams == w.db.exams && Act(env, w, a).db.runs[r] == w.db.runs[r]
  {
  }

  lemma ExamActionFixesDuration(env: Env, w: World, a: Action, r: Id)
    requires a.CreateExamAction? || a.UpdateExamAction? || a.DeleteExamAction?
    requires RunIs(w.db, r, Running) && w.db.runs[r].examId in w.db.exams
    requires r in Act(env, w, a).db.runs && w.db.runs[r].examId in Act(env, w, a).db.exams
    ensures SettingsOf(Act(env, w, a).db, r) == SettingsOf(w.db, r)
  {
  }
}
