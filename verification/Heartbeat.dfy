/** The heartbeat checker over whole runs of the server. */
module Heartbeat {
  import opened Basics
  import opened Chain
  import opened CheatingEngine
  import opened Database
  import opened Protocol
  import opened Ownership
  import opened Integrity
  import opened Finality
  import opened Isolation
  import opened Messages
  import Records

  const TEN_SECONDS: Time := 10_000_000_000
  const PERIOD: Time := 5_000_000_000

  // ---------------------------------------------------------------- what happens to one student

  /** The step is an accepted login of this student. */
  ghost predicate LoginOf(env: Env, w: World, step: Step, sid: Id) {
    && step.action.Message? && step.action.c in w.clients && env.decode(step.action.raw).Some?
    && var call := env.decode(step.action.raw).value;
    && call.Login? && LoginStatus(w, step.action.c, call.name, call.runId) == 0
    && FindStudent(w.db, call.runId, call.name) == Some(sid)
  }

  /** The step is an accepted login or an accepted heartbeat of this student. */
  ghost predicate Beat(env: Env, w: World, step: Step, sid: Id) {
    || LoginOf(env, w, step, sid)
    || (var row := Accepted(env, w, step);
        row.Some? && row.value.studentId == sid && row.value.event == "heartbeat")
  }

  /** The step is a pass of the checker that flags this student. */
  ghost predicate Raises(w: World, step: Step, sid: Id) {
    step.action.HeartbeatTick? && Lapsed(w, sid, step.now)
  }

  function Flagged(raises: bool): nat {
    if raises then 1 else 0
  }

  /** How one step moves the monitor of a student. */
  predicate Pulse(m: Monitor, m': Monitor, now: Time, login: bool, beat: bool, raises: bool) {
    && m'.lastHeartbeat == (if beat then now else m.lastHeartbeat)
    && m'.connected == (if login then true else if raises then false else m.connected)
    && (m.finished ==> m'.finished)
    && Disconnects(m'.flags) == Disconnects(m.flags) + Flagged(raises)
  }

  lemma AddOrdinaryPulse(m: Monitor, ns: seq<Notice>, now: Time)
    requires Disconnects(Stamp(ns, now)) == 0
    ensures Disconnects(AddNotices(m, ns, now).flags) == Disconnects(m.flags)
  {
    DisconnectsConcat(m.flags, Stamp(ns, now));
  }

  lemma VerifiedPulse(m: Monitor, wire: Wire, raw: Raw, now: Time)
    ensures Pulse(m, Verified(m, wire, raw, now), now, false, false, false)
  {
    var faults := Verify(m.link, wire.header(raw));
    ChainNoticesDisconnectNothing(faults, now);
    AddOrdinaryPulse(m, ChainNotices(faults), now);
  }

  lemma CheckChainPulse(env: Env, w: World, c: ExamClient, raw: Raw, now: Time, s: CheatingState)
    requires s in w.monitors
    ensures Pulse(w.monitors[s], CheckChain(env, w, c, raw, now).monitors[s], now, false, false, false)
  {
    VerifiedPulse(w.monitors[s], env.wire, raw, now);
  }

  lemma EventPulse(env: Env, w: World, c: ExamClient, event: string, detail: Detail, id: Id, now: Time, s: CheatingState)
    requires c in w.clients && s in w.monitors
    ensures Pulse(w.monitors[s], DoEvent(env, w, c, event, detail, id, now).monitors[s], now,
                  false, s == w.clients[c].cheating && event == HEARTBEAT, false)
  {
    var ns := EventNotices(env.lower, event, detail);
    EventNoticesOrdinary(env.lower, event, detail);
    OrdinaryCountsNothing(ns, now);
    AddOrdinaryPulse(w.monitors[s], ns, now);
  }

  lemma TickPulse(m: Monitor, now: Time)
    ensures Pulse(m, Ticked(m, now), now, false, false, Silent(m, now))
  {
    var stamped := Stamp([Notice(StudentDisconnected, Medium)], now);
    assert stamped[..0] == [];
    DisconnectsConcat(m.flags, stamped);
  }

  /** Lookup of a student does not depend on statistics. */
  lemma FindSameRows(w: World, w': World, runId: Id, name: string)
    requires SameRows(w.db, w'.db) && UniqueNames(w.db)
    ensures FindStudent(w'.db, runId, name) == FindStudent(w.db, runId, name)
  {
    assert forall id :: Matches(w'.db, id, runId, name) <==> Matches(w.db, id, runId, name);
  }

  /** What a decoded call does to the monitor of student `sid`, which exists. */
  ghost predicate CallBeats(w: World, c: ExamClient, call: Call, id: Id, sid: Id)
    requires c in w.clients
  {
    call.Event? && EventStatus(w, c, call.event, id) == 0 && call.event == HEARTBEAT && w.clients[c].studentId == sid
  }

  ghost predicate CallLogsIn(w: World, c: ExamClient, call: Call, sid: Id)
    requires c in w.clients
  {
    && call.Login? && LoginStatus(w, c, call.name, call.runId) == 0
    && FindStudent(w.db, call.runId, call.name) == Some(sid)
  }

  lemma DispatchPulse(env: Env, w: World, c: ExamClient, call: Call, id: Id, cell: CheatingState, now: Time, sid: Id)
    requires Owned(w) && c in w.clients && cell !in w.monitors && sid in w.states
    ensures
      var w' := Dispatch(env, w, c, call, id, cell, now);
      var s := w.states[sid];
      s in w'.monitors &&
      Pulse(w.monitors[s], w'.monitors[s], now, CallLogsIn(w, c, call, sid),
            CallLogsIn(w, c, call, sid) || CallBeats(w, c, call, id, sid), false)
  {
    var s := w.states[sid];
    assert ClientOwned(w, w.clients[c]);
    if ReplyStatus(env, w, c, call, id) == 0 {
      match call
      case Login(name, runId) => LoginPulse(w, c, name, runId, cell, now, sid);
      case Event(event, detail) =>
        EventPulse(env, w, c, event, detail, id, now, s);
        assert s == w.clients[c].cheating <==> w.clients[c].studentId == sid;
      case _ =>
    }
  }

  lemma LoginPulse(w: World, c: ExamClient, name: string, runId: Id, cell: CheatingState, now: Time, sid: Id)
    requires Owned(w) && c in w.clients && cell !in w.monitors && sid in w.states
    requires LoginStatus(w, c, name, runId) == 0
    ensures
      var found := FindStudent(w.db, runId, name).value;
      var w' := DoLogin(w, c, found, cell, now);
      var s := w.states[sid];
      s in w'.monitors && Pulse(w.monitors[s], w'.monitors[s], now, found == sid, found == sid, false)
  {
    var found := FindStudent(w.db, runId, name).value;
    assert found in w.states ==> w.monitors[w.states[found]].studentId == found;
    assert w.monitors[w.states[sid]].studentId == sid;
  }

  /** The chain check before the dispatch changes nothing the dispatch decides by. */
  lemma BeatsAfterCheck(env: Env, w: World, step: Step, w1: World, call: Call, sid: Id)
    requires UniqueNames(w.db) && step.action.Message? && step.action.c in w.clients
    requires env.decode(step.action.raw) == Some(call)
    requires SameRows(w.db, w1.db) && w1.clients == w.clients
    ensures CallLogsIn(w1, step.action.c, call, sid) == LoginOf(env, w, step, sid)
    ensures (CallLogsIn(w1, step.action.c, call, sid) || CallBeats(w1, step.action.c, call, step.action.id, sid))
            == Beat(env, w, step, sid)
  {
    if call.Login? {
      LoginStatusSameRows(w, w1, step.action.c, call.name, call.runId);
      FindSameRows(w, w1, call.runId, call.name);
    }
  }

  lemma DeliverPulse(env: Env, w: World, c: ExamClient, raw: Raw, call: Call, id: Id, cell: CheatingState, now: Time,
                     sid: Id)
    requires Owned(w) && c in w.clients && cell !in w.monitors && sid in w.states && env.decode(raw) == Some(call)
    ensures
      var w1 := CheckChain(env, w, c, raw, now);
      var w' := Deliver(env, w, c, raw, id, cell, now);
      var s := w.states[sid];
      && w1.clients == w.clients && s in w'.monitors
      && Pulse(w.monitors[s], w'.monitors[s], now, CallLogsIn(w1, c, call, sid),
               CallLogsIn(w1, c, call, sid) || CallBeats(w1, c, call, id, sid), false)
  {
    var s := w.states[sid];
    var w1 := CheckChain(env, w, c, raw, now);
    CheckChainSameOwners(env, w, c, raw, now);
    SameOwnersKeepOwned(w, w1);
    CheckChainPulse(env, w, c, raw, now, s);
    DispatchPulse(env, w1, c, call, id, cell, now, sid);
    StartChainPulse(env, Dispatch(env, w1, c, call, id, cell, now), c, raw, now, s);
  }

  lemma StartChainPulse(env: Env, w: World, c: ExamClient, raw: Raw, now: Time, s: CheatingState)
    requires s in w.monitors
    ensures s in StartChain(env, w, c, raw).monitors
    ensures Pulse(w.monitors[s], StartChain(env, w, c, raw).monitors[s], now, false, false, false)
  {
  }

  lemma MessagePulse(env: Env, w: World, step: Step, sid: Id)
    requires Owned(w) && Legal(w, step) && step.action.Message? && step.now == w.now && sid in w.states
    ensures
      var w' := Act(env, w, step.action);
      var s := w.states[sid];
      s in w'.monitors &&
      Pulse(w.monitors[s], w'.monitors[s], step.now, LoginOf(env, w, step, sid), Beat(env, w, step, sid), false)
  {
    var c, raw := step.action.c, step.action.raw;
    if env.decode(raw).Some? {
      var call := env.decode(raw).value;
      CheckChainSameRows(env, w, c, raw, w.now);
      DeliverPulse(env, w, c, raw, call, step.action.id, step.action.cell, w.now, sid);
      BeatsAfterCheck(env, w, step, CheckChain(env, w, c, raw, w.now), call, sid);
    }
  }

  lemma CheckerPulse(env: Env, w: World, a: Action, sid: Id)
    requires Owned(w) && !a.Message? && sid in w.states && a != ClearFlagsAction(sid)
    ensures
      var w' := Act(env, w, a);
      var s := w.states[sid];
      s in w'.monitors &&
      Pulse(w.monitors[s], w'.monitors[s], w.now, false, false, a.HeartbeatTick? && Lapsed(w, sid, w.now))
  {
    var s := w.states[sid];
    if a.HeartbeatTick? {
      TickPulse(w.monitors[s], w.now);
    } else if a.ClearFlagsAction? {
      assert a.studentId in w.states ==> w.monitors[w.states[a.studentId]].studentId == a.studentId;
    } else {
      QuietMonitors(env, w, a);
    }
  }

  /** One step, for a student with a monitor; clearing the record moves nothing but flags and score. */
  lemma NextPulse(env: Env, w: World, step: Step, sid: Id)
    requires Owned(w) && Legal(w, step) && sid in w.states
    ensures
      var w' := Next(env, w, step);
      var s := w.states[sid];
      && sid in w'.states && w'.states[sid] == s && s in w.monitors && s in w'.monitors
      && if Clears(step, sid) then w'.monitors[s] == w.monitors[s].(flags := [], score := 0)
         else Pulse(w.monitors[s], w'.monitors[s], step.now,
                    LoginOf(env, w, step, sid), Beat(env, w, step, sid), Raises(w, step, sid))
  {
    var v := w.(now := step.now);
    SameOwnersKeepOwned(w, v);
    NextKeepsStates(env, w, step);
    if step.action.Message? {
      assert LoginOf(env, v, step, sid) == LoginOf(env, w, step, sid);
      assert Accepted(env, v, step) == Accepted(env, w, step);
      MessagePulse(env, v, step, sid);
    } else if !Clears(step, sid) {
      CheckerPulse(env, v, step.action, sid);
    }
  }

  /** One step, for a student without a monitor: only its first login creates one, connected and without flags. */
  lemma NextCreates(env: Env, w: World, step: Step, sid: Id)
    requires Owned(w) && Legal(w, step) && sid !in w.states
    ensures
      var w' := Next(env, w, step);
      && (sid in w'.states <==> LoginOf(env, w, step, sid))
      && (sid in w'.states ==>
            && w'.states[sid] in w'.monitors
            && var m := w'.monitors[w'.states[sid]];
            m.connected && m.lastHeartbeat == step.now && m.flags == [] && !m.finished)
  {
    var v := w.(now := step.now);
    if step.action.Message? {
      var c, raw := step.action.c, step.action.raw;
      if env.decode(raw).Some? {
        var call := env.decode(raw).value;
        var w1 := CheckChain(env, v, c, raw, v.now);
        CheckChainSameOwners(env, v, c, raw, v.now);
        CheckChainSameRows(env, v, c, raw, v.now);
        BeatsAfterCheck(env, w, step, w1, call, sid);
        DispatchCreates(env, w1, c, call, step.action.id, step.action.cell, v.now, sid);
      }
    } else if !ConnectionAction(step.action) {
      OtherActionSameOwners(env, v, step.action);
    }
  }

  lemma DispatchCreates(env: Env, w: World, c: ExamClient, call: Call, id: Id, cell: CheatingState, now: Time, sid: Id)
    requires c in w.clients && sid !in w.states
    ensures
      var w' := Dispatch(env, w, c, call, id, cell, now);
      && (sid in w'.states <==> CallLogsIn(w, c, call, sid))
      && (sid in w'.states ==>
            && w'.states[sid] in w'.monitors
            && var m := w'.monitors[w'.states[sid]];
            m.connected && m.lastHeartbeat == now && m.flags == [] && !m.finished)
  {
    if call.Event? {
      EventSameOwners(env, w, c, call.event, call.detail, id, now);
    }
  }

  // ---------------------------------------------------------------- whole runs

  ghost predicate Connected(w: World, sid: Id) {
    sid in w.states && w.states[sid] in w.monitors && w.monitors[w.states[sid]].connected
  }

  /** How often the run logs this student in. */
  ghost function Logins(env: Env, w: World, steps: seq<Step>, sid: Id): nat {
    if steps == [] then 0
    else
      var n := |steps| - 1;
      Logins(env, w, steps[..n], sid) + Flagged(LoginOf(env, Exec(env, w, steps[..n]), steps[n], sid))
  }

  /** The times at which the run's heartbeat checks flag this student. */
  ghost function RaisedAt(env: Env, w: World, steps: seq<Step>, sid: Id): seq<Time> {
    if steps == [] then []
    else
      var n := |steps| - 1;
      RaisedAt(env, w, steps[..n], sid) + if Raises(Exec(env, w, steps[..n]), steps[n], sid) then [steps[n].now] else []
  }

  /** A student is reported offline at most once for each login. */
  lemma {:induction false} OfflineAtMostOncePerLogin(env: Env, steps: seq<Step>, sid: Id)
    requires LegalRun(env, START, steps)
    ensures |RaisedAt(env, START, steps, sid)| + Flagged(Connected(Exec(env, START, steps), sid))
            <= Logins(env, START, steps, sid)
  {
    if steps == [] {
    } else {
      var n := |steps| - 1;
      OfflineAtMostOncePerLogin(env, steps[..n], sid);
      ReachableOwned(env, steps[..n]);
      OnceStep(env, Exec(env, START, steps[..n]), steps[n], sid);
    }
  }

  lemma OnceStep(env: Env, w: World, step: Step, sid: Id)
    requires Owned(w) && Legal(w, step)
    ensures Flagged(Raises(w, step, sid)) + Flagged(Connected(Next(env, w, step), sid))
            <= Flagged(LoginOf(env, w, step, sid)) + Flagged(Connected(w, sid))
  {
    if sid !in w.states {
      NextCreates(env, w, step, sid);
    } else {
      NextPulse(env, w, step, sid);
    }
  }

  /** A legal run from a state in which the student has a monitor. */
  ghost predicate Followed(env: Env, w: World, steps: seq<Step>, sid: Id) {
    Owned(w) && LegalRun(env, w, steps) && sid in w.states
  }

  ghost function StudentMonitor(w: World, sid: Id): Monitor
    requires Owned(w) && sid in w.states
  {
    w.monitors[w.states[sid]]
  }

  /** The time of the last accepted heartbeat or login, read off the run. */
  ghost function LastBeat(env: Env, w: World, steps: seq<Step>, sid: Id): Time
    requires Owned(w) && sid in w.states
  {
    if steps == [] then StudentMonitor(w, sid).lastHeartbeat
    else
      var n := |steps| - 1;
      if Beat(env, Exec(env, w, steps[..n]), steps[n], sid) then steps[n].now else LastBeat(env, w, steps[..n], sid)
  }

  /** The disconnect flags on record, when they were `before`: a clear empties the record, and each report adds one. */
  ghost function OnRecord(env: Env, w: World, before: nat, steps: seq<Step>, sid: Id): nat {
    if steps == [] then before
    else
      var n := |steps| - 1;
      if Clears(steps[n], sid) then 0
      else OnRecord(env, w, before, steps[..n], sid) + Flagged(Raises(Exec(env, w, steps[..n]), steps[n], sid))
  }

  /** Unless the record is cleared, it grows by the reports. */
  lemma {:induction false} OnRecordGrows(env: Env, w: World, before: nat, steps: seq<Step>, sid: Id)
    requires NoClears(steps, sid)
    ensures OnRecord(env, w, before, steps, sid) == before + |RaisedAt(env, w, steps, sid)|
  {
    if steps == [] {
    } else {
      var n := |steps| - 1;
      assert !Clears(steps[n], sid);
      OnRecordGrows(env, w, before, steps[..n], sid);
    }
  }

  lemma OnRecordStep(env: Env, w: World, before: nat, steps: seq<Step>, last: Step, sid: Id)
    ensures OnRecord(env, w, before, steps + [last], sid) ==
            if Clears(last, sid) then 0
            else OnRecord(env, w, before, steps, sid) + Flagged(Raises(Exec(env, w, steps), last, sid))
  {
    assert (steps + [last])[..|steps|] == steps;
  }

  lemma {:induction false} OnRecordConcat(env: Env, w: World, before: nat, a: seq<Step>, b: seq<Step>, sid: Id)
    ensures OnRecord(env, w, before, a + b, sid) ==
            OnRecord(env, Exec(env, w, a), OnRecord(env, w, before, a, sid), b, sid)
  {
    if b == [] {
      assert a + b == a;
    } else {
      var n := |b| - 1;
      OnRecordConcat(env, w, before, a, b[..n], sid);
      SplitLast(a, b);
      OnRecordStep(env, w, before, a + b[..n], b[n], sid);
      OnRecordStep(env, Exec(env, w, a), OnRecord(env, w, before, a, sid), b[..n], b[n], sid);
      ExecConcat(env, w, a, b[..n]);
    }
  }

  /** After the last clear, the disconnect flags on record are the reports since. */
  lemma OnRecordSinceClear(env: Env, w: World, before: nat, past: seq<Step>, clear: Step, rest: seq<Step>, sid: Id)
    requires Clears(clear, sid) && NoClears(rest, sid)
    ensures OnRecord(env, w, before, past + [clear] + rest, sid) ==
            |RaisedAt(env, Exec(env, w, past + [clear]), rest, sid)|
  {
    OnRecordStep(env, w, before, past, clear, sid);
    OnRecordConcat(env, w, before, past + [clear], rest, sid);
    OnRecordGrows(env, Exec(env, w, past + [clear]), 0, rest, sid);
  }

  /**
   The monitor tells the run: its time is that of the last accepted heartbeat or login, its disconnect flags are the
   passes that flagged it since the last clear, and a finished student is never flagged again.
   */
  lemma {:induction false} MonitorTellsTheRun(env: Env, w: World, steps: seq<Step>, sid: Id)
    requires Followed(env, w, steps, sid)
    ensures
      var w' := Exec(env, w, steps);
      && Owned(w') && sid in w'.states
      && StudentMonitor(w', sid).lastHeartbeat == LastBeat(env, w, steps, sid)
      && Disconnects(StudentMonitor(w', sid).flags) ==
           OnRecord(env, w, Disconnects(StudentMonitor(w, sid).flags), steps, sid)
      && (StudentMonitor(w, sid).finished ==> StudentMonitor(w', sid).finished && RaisedAt(env, w, steps, sid) == [])
  {
    if steps == [] {
    } else {
      var n := |steps| - 1;
      MonitorTellsTheRun(env, w, steps[..n], sid);
      ExecKeepsOwned(env, w, steps);
      NextPulse(env, Exec(env, w, steps[..n]), steps[n], sid);
    }
  }

  /** Each check of the run comes within the limit after the last accepted heartbeat or login. */
  ghost predicate Timely(env: Env, w: World, steps: seq<Step>, sid: Id)
    requires Owned(w) && sid in w.states
  {
    steps != [] ==>
      var n := |steps| - 1;
      && Timely(env, w, steps[..n], sid)
      && (steps[n].action.HeartbeatTick? ==> steps[n].now - LastBeat(env, w, steps[..n], sid) <= TEN_SECONDS)
  }

  /** A student whose heartbeats arrive in time is never reported offline. */
  lemma {:induction false} TimelyIsNeverFlagged(env: Env, w: World, steps: seq<Step>, sid: Id)
    requires Followed(env, w, steps, sid) && Timely(env, w, steps, sid)
    ensures RaisedAt(env, w, steps, sid) == []
  {
    if steps == [] {
    } else {
      var n := |steps| - 1;
      TimelyIsNeverFlagged(env, w, steps[..n], sid);
      MonitorTellsTheRun(env, w, steps[..n], sid);
    }
  }

  /** Each accepted heartbeat or login of the student comes within the limit after the one before. */
  ghost predicate Regular(env: Env, w: World, steps: seq<Step>, sid: Id)
    requires Owned(w) && sid in w.states
  {
    steps != [] ==>
      var n := |steps| - 1;
      && Regular(env, w, steps[..n], sid)
      && (Beat(env, Exec(env, w, steps[..n]), steps[n], sid) ==>
            steps[n].now - LastBeat(env, w, steps[..n], sid) <= TEN_SECONDS)
  }

  lemma {:induction false} RegularIsTimely(env: Env, w: World, steps: seq<Step>, sid: Id)
    requires Followed(env, w, steps, sid) && Regular(env, w, steps, sid)
    requires Exec(env, w, steps).now - LastBeat(env, w, steps, sid) <= TEN_SECONDS
    ensures Timely(env, w, steps, sid)
  {
    if steps == [] {
    } else {
      var n := |steps| - 1;
      Records.NextSetsClock(env, Exec(env, w, steps[..n]), steps[n]);
      RegularIsTimely(env, w, steps[..n], sid);
    }
  }

  /** A student whose accepted heartbeats are at most ten seconds apart, up to the end of the run, is never reported. */
  lemma RegularIsNeverFlagged(env: Env, w: World, steps: seq<Step>, sid: Id)
    requires Followed(env, w, steps, sid) && Regular(env, w, steps, sid)
    requires Exec(env, w, steps).now - LastBeat(env, w, steps, sid) <= TEN_SECONDS
    ensures RaisedAt(env, w, steps, sid) == []
  {
    RegularIsTimely(env, w, steps, sid);
    TimelyIsNeverFlagged(env, w, steps, sid);
  }

  /** The times of the heartbeat checks of a run. */
  function Ticks(steps: seq<Step>): seq<Time> {
    if steps == [] then []
    else
      var n := |steps| - 1;
      Ticks(steps[..n]) + if steps[n].action.HeartbeatTick? then [steps[n].now] else []
  }

  /** The checks come one period apart, starting at `first`. */
  ghost predicate Periodic(steps: seq<Step>, first: Time) {
    forall i :: 0 <= i < |Ticks(steps)| ==> Ticks(steps)[i] == first + i * PERIOD
  }

  /** No heartbeat or login of the student is accepted during the run, and it does not finish. */
  ghost predicate Quiet(env: Env, w: World, steps: seq<Step>, sid: Id) {
    && (sid in Exec(env, w, steps).states && Exec(env, w, steps).states[sid] in Exec(env, w, steps).monitors ==>
          !Exec(env, w, steps).monitors[Exec(env, w, steps).states[sid]].finished)
    && (steps != [] ==>
          var n := |steps| - 1;
          Quiet(env, w, steps[..n], sid) && !Beat(env, Exec(env, w, steps[..n]), steps[n], sid))
  }

  /** Flagged once, after the limit and within one period more, as soon as a check comes after the limit; else not at all. */
  predicate FlaggedInTime(ticks: seq<Time>, times: seq<Time>, connected: bool, t: Time) {
    if |ticks| > 0 && ticks[|ticks| - 1] > t + TEN_SECONDS
    then |times| == 1 && t + TEN_SECONDS < times[0] <= t + TEN_SECONDS + PERIOD && !connected
    else times == [] && connected
  }

  lemma FlaggedInTimeStep(ticks: seq<Time>, times: seq<Time>, connected: bool, t: Time, first: Time, tick: bool, now: Time)
    requires forall i :: 0 <= i < |ticks| ==> ticks[i] == first + i * PERIOD
    requires first <= t + PERIOD && FlaggedInTime(ticks, times, connected, t)
    requires tick ==> now == first + |ticks| * PERIOD
    ensures
      var raises := tick && connected && now - t > TEN_SECONDS;
      FlaggedInTime(ticks + if tick then [now] else [], times + if raises then [now] else [], connected && !raises, t)
  {
    if tick && |ticks| > 0 {
      assert ticks[|ticks| - 1] + PERIOD == now;
    }
  }

  /**
   A connected student falls silent at time `t`.  With checks five seconds apart, none is flagged by a check up to ten
   seconds later, and as soon as there is a later one it is flagged exactly once, between ten and fifteen seconds
   after `t`, and then counts as disconnected.
   */
  lemma {:induction false} SilenceIsFlaggedInTime(env: Env, w: World, steps: seq<Step>, sid: Id, first: Time)
    requires Followed(env, w, steps, sid) && Connected(w, sid)
    requires Quiet(env, w, steps, sid) && Periodic(steps, first)
    requires first <= StudentMonitor(w, sid).lastHeartbeat + PERIOD
    ensures FlaggedInTime(Ticks(steps), RaisedAt(env, w, steps, sid), Connected(Exec(env, w, steps), sid),
                          StudentMonitor(w, sid).lastHeartbeat)
  {
    if steps == [] {
    } else {
      var n := |steps| - 1;
      var t, mid, last := StudentMonitor(w, sid).lastHeartbeat, Exec(env, w, steps[..n]), steps[n];
      PeriodicPrefix(steps, first);
      SilenceIsFlaggedInTime(env, w, steps[..n], sid, first);
      QuietKeepsBeat(env, w, steps[..n], sid);
      MonitorTellsTheRun(env, w, steps[..n], sid);
      QuietStep(env, mid, last, sid);
      FlaggedInTimeStep(Ticks(steps[..n]), RaisedAt(env, w, steps[..n], sid), Connected(mid, sid), t, first,
                        last.action.HeartbeatTick?, last.now);
    }
  }

  /** A step without a beat of an unfinished student: a check flags it when it is connected and past the limit. */
  lemma QuietStep(env: Env, w: World, step: Step, sid: Id)
    requires Owned(w) && Legal(w, step) && sid in w.states
    requires !Beat(env, w, step, sid) && !StudentMonitor(w, sid).finished
    ensures Raises(w, step, sid) <==>
      step.action.HeartbeatTick? && Connected(w, sid) && step.now - StudentMonitor(w, sid).lastHeartbeat > TEN_SECONDS
    ensures Connected(Next(env, w, step), sid) <==> Connected(w, sid) && !Raises(w, step, sid)
  {
    NextPulse(env, w, step, sid);
  }

  lemma PeriodicPrefix(steps: seq<Step>, first: Time)
    requires steps != [] && Periodic(steps, first)
    ensures Periodic(steps[..|steps| - 1], first)
    ensures var last := steps[|steps| - 1];
      last.action.HeartbeatTick? ==> last.now == first + |Ticks(steps[..|steps| - 1])| * PERIOD
  {
    var before, all := Ticks(steps[..|steps| - 1]), Ticks(steps);
    assert forall i :: 0 <= i < |before| ==> all[i] == before[i];
    if steps[|steps| - 1].action.HeartbeatTick? {
      assert all[|before|] == steps[|steps| - 1].now;
    }
  }

  lemma {:induction false} QuietKeepsBeat(env: Env, w: World, steps: seq<Step>, sid: Id)
    requires Owned(w) && sid in w.states && Quiet(env, w, steps, sid)
    ensures LastBeat(env, w, steps, sid) == StudentMonitor(w, sid).lastHeartbeat
  {
    if steps == [] {
    } else {
      QuietKeepsBeat(env, w, steps[..|steps| - 1], sid);
    }
  }

  // ---------------------------------------------------------------- finished students

  ghost predicate MonitorFinished(w: World, sid: Id) {
    sid in w.states && w.states[sid] in w.monitors && w.monitors[w.states[sid]].finished
  }

  /** Whoever has a finish row has a monitor that is marked as finished. */
  ghost predicate FinishersMarked(w: World) {
    forall sid :: SaidFinished(w.db, sid) ==> MonitorFinished(w, sid)
  }

  /** The monitor of a student stays marked. */
  lemma MarkStays(env: Env, w: World, step: Step, sid: Id)
    requires Owned(w) && Legal(w, step) && MonitorFinished(w, sid)
    ensures MonitorFinished(Next(env, w, step), sid)
  {
    NextPulse(env, w, step, sid);
  }

  /** An accepted finish marks the monitor of its student. */
  lemma AcceptedFinishMarks(env: Env, w: World, step: Step)
    requires Owned(w) && Legal(w, step)
    requires Accepted(env, w, step).Some? && Accepted(env, w, step).value.event == "student_finished"
    ensures MonitorFinished(Next(env, w, step), Accepted(env, w, step).value.studentId)
  {
    var c, call := step.action.c, env.decode(step.action.raw).value;
    assert ClientOwned(w, w.clients[c]);
    EventReplies(w, c, call.event, step.action.id);
    EventMessage(env, w, step);
  }

  /** The finish rows after a step are old ones, or that of the finish it accepts. */
  lemma FinishRowsComeFrom(env: Env, w: World, step: Step, sid: Id)
    requires Legal(w, step) && SaidFinished(Next(env, w, step).db, sid)
    ensures
      var row := Accepted(env, w, step);
      SaidFinished(w.db, sid) || (row.Some? && row.value.studentId == sid && row.value.event == "student_finished")
  {
    var w' := Next(env, w, step);
    var row :| row in w'.db.events && row.studentId == sid && row.event == "student_finished";
    if step.action.Message? {
      AcceptedIsAppended(env, w, step);
    } else {
      OtherActionFrame(env, w.(now := step.now), step.action);
      assert row in w.db.events;
    }
  }

  lemma NextKeepsFinishersMarked(env: Env, w: World, step: Step)
    requires Owned(w) && Legal(w, step) && FinishersMarked(w)
    ensures FinishersMarked(Next(env, w, step))
  {
    forall sid | SaidFinished(Next(env, w, step).db, sid) ensures MonitorFinished(Next(env, w, step), sid) {
      FinishRowsComeFrom(env, w, step, sid);
      if SaidFinished(w.db, sid) {
        MarkStays(env, w, step, sid);
      } else {
        AcceptedFinishMarks(env, w, step);
      }
    }
  }

  /** In every reachable state, a student with a finish row has a monitor, and it is marked as finished. */
  lemma {:induction false} ReachableFinishersMarked(env: Env, steps: seq<Step>)
    requires LegalRun(env, START, steps)
    ensures FinishersMarked(Exec(env, START, steps))
  {
    if steps == [] {
    } else {
      var n := |steps| - 1;
      ReachableFinishersMarked(env, steps[..n]);
      ReachableOwned(env, steps[..n]);
      NextKeepsFinishersMarked(env, Exec(env, START, steps[..n]), steps[n]);
    }
  }

  /** Once a finish of the student is accepted, no heartbeat check of any continuation reports it as offline. */
  lemma FinishEndsReports(env: Env, w: World, step: Step, steps: seq<Step>, sid: Id)
    requires Owned(w) && Legal(w, step) && LegalRun(env, Next(env, w, step), steps)
    requires Accepted(env, w, step).Some? && Accepted(env, w, step).value.studentId == sid
    requires Accepted(env, w, step).value.event == "student_finished"
    ensures RaisedAt(env, Next(env, w, step), steps, sid) == []
  {
    AcceptedFinishMarks(env, w, step);
    NextKeepsOwned(env, w, step);
    MonitorTellsTheRun(env, Next(env, w, step), steps, sid);
  }
}
