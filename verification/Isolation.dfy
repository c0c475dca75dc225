/**
 The chain check of one connection inside the whole server: whatever the other connections, the checkers and the
 teachers do, it sees exactly the connection's own messages.
 */
module Isolation {
  import opened Basics
  import opened Chain
  import opened CheatingEngine
  import opened Database
  import opened Protocol
  import opened Ownership
  import opened Integrity
  import opened Records

  /** The messages a run delivers on one connection, without those that are not JSON. */
  function OwnMessages(env: Env, steps: seq<Step>, c: ExamClient): seq<Raw> {
    if steps == [] then []
    else
      var n := |steps| - 1;
      OwnMessages(env, steps[..n], c) +
      if OwnMessage(env, steps[n], c) then [steps[n].action.raw] else []
  }

  predicate OwnMessage(env: Env, step: Step, c: ExamClient) {
    step.action.Message? && step.action.c == c && env.decode(step.action.raw).Some?
  }

  /** The faults of a session that goes on from `link`. */
  function FaultsFrom(wire: Wire, link: Link, ms: seq<Raw>): seq<Fault> {
    if ms == [] then []
    else
      var n := |ms| - 1;
      FaultsFrom(wire, link, ms[..n]) + Verify(LinkAfter(wire, link, ms[..n]), wire.header(ms[n]))
  }

  function LinkAfter(wire: Wire, link: Link, ms: seq<Raw>): Link {
    if ms == [] then link else Advance(wire, ms[|ms| - 1])
  }

  lemma {:induction false} FaultsAfterLogin(wire: Wire, login: Raw, ms: seq<Raw>)
    ensures FaultsFrom(wire, Advance(wire, login), ms) == Faults(wire, [login] + ms)
  {
    var all := [login] + ms;
    if ms == [] {
    } else {
      var n := |ms| - 1;
      FaultsAfterLogin(wire, login, ms[..n]);
      assert all[..n + 1] == [login] + ms[..n];
      assert all[n] == if n == 0 then login else ms[n - 1];
    }
  }

  predicate LogsIn(env: Env, step: Step, c: ExamClient) {
    OwnMessage(env, step, c) && env.decode(step.action.raw).value.Login?
  }

  /** The step is a login on this connection that the server accepts. */
  ghost predicate Relogin(env: Env, w: World, step: Step, c: ExamClient) {
    && LogsIn(env, step, c)
    && var call := env.decode(step.action.raw).value;
    && LoginStatus(w, c, call.name, call.runId) == 0
  }

  /** The connection neither closes nor logs in again during the run. */
  ghost predicate OneSession(env: Env, w: World, steps: seq<Step>, c: ExamClient) {
    steps != [] ==>
      var n := |steps| - 1;
      && OneSession(env, w, steps[..n], c)
      && steps[n].action != Disconnect(c)
      && !Relogin(env, Exec(env, w, steps[..n]), steps[n], c)
  }

  predicate Clears(step: Step, sid: Id) {
    step.action == ClearFlagsAction(sid)
  }

  /** The session of a connection is under way. */
  ghost predicate InSession(w: World, c: ExamClient) {
    Owned(w) && c in w.clients && w.clients[c].cheating != null
  }

  // ---------------------------------------------------------------- other connections

  /** Monitor `s` and connection `c` come out of the step untouched. */
  ghost predicate Untouched(w: World, w': World, c: ExamClient, s: CheatingState) {
    && c in w.clients && c in w'.clients && w'.clients[c] == w.clients[c]
    && s in w.monitors && s in w'.monitors && w'.monitors[s] == w.monitors[s]
  }

  lemma OthersHaveOtherMonitors(w: World, c: ExamClient, d: ExamClient)
    requires InSession(w, c) && d in w.clients && d != c
    ensures w.clients[d].cheating != w.clients[c].cheating
  {
    assert ClientOwned(w, w.clients[c]) && ClientOwned(w, w.clients[d]);
  }

  lemma StrangerLogin(w: World, c: ExamClient, d: ExamClient, name: string, runId: Id, cell: CheatingState, now: Time)
    requires InSession(w, c) && d in w.clients && d != c && cell !in w.monitors
    requires LoginStatus(w, d, name, runId) == 0
    ensures
      var w' := DoLogin(w, d, FindStudent(w.db, runId, name).value, cell, now);
      Untouched(w, w', c, w.clients[c].cheating) && w'.clients[d].cheating != w.clients[c].cheating
  {
    assert ClientOwned(w, w.clients[c]);
    var sid := FindStudent(w.db, runId, name).value;
    assert sid != w.clients[c].studentId;
    assert sid in w.states ==> w.monitors[w.states[sid]].studentId == sid;
  }

  lemma StrangerMessage(env: Env, w: World, c: ExamClient, d: ExamClient, raw: Raw, id: Id, cell: CheatingState, now: Time)
    requires InSession(w, c) && d in w.clients && d != c && cell !in w.monitors
    ensures Untouched(w, Deliver(env, w, d, raw, id, cell, now), c, w.clients[c].cheating)
  {
    var s := w.clients[c].cheating;
    assert ClientOwned(w, w.clients[c]);
    OthersHaveOtherMonitors(w, c, d);
    var decoded := env.decode(raw);
    if decoded.Some? {
      var w1 := CheckChain(env, w, d, raw, now);
      CheckChainSameOwners(env, w, d, raw, now);
      SameOwnersKeepOwned(w, w1);
      StrangerCall(env, w1, c, d, decoded.value, id, cell, now);
    }
  }

  lemma StrangerCall(env: Env, w: World, c: ExamClient, d: ExamClient, call: Call, id: Id, cell: CheatingState, now: Time)
    requires InSession(w, c) && d in w.clients && d != c && cell !in w.monitors
    ensures
      var w' := Dispatch(env, w, d, call, id, cell, now);
      Untouched(w, w', c, w.clients[c].cheating) && d in w'.clients && w'.clients[d].cheating != w.clients[c].cheating
  {
    assert ClientOwned(w, w.clients[c]);
    OthersHaveOtherMonitors(w, c, d);
    if ReplyStatus(env, w, d, call, id) == 0 {
      match call
      case Login(name, runId) => StrangerLogin(w, c, d, name, runId, cell, now);
      case Event(event, detail) => StrangerEvent(env, w, c, d, event, detail, id, now);
      case _ =>
    }
  }

  lemma StrangerEvent(env: Env, w: World, c: ExamClient, d: ExamClient, event: string, detail: Detail, id: Id, now: Time)
    requires Watched(w, c) && d in w.clients && d != c && w.clients[d].cheating != w.clients[c].cheating
    ensures
      var w' := DoEvent(env, w, d, event, detail, id, now);
      Untouched(w, w', c, w.clients[c].cheating) && w'.clients[d].cheating == w.clients[d].cheating
  {
  }

  // ---------------------------------------------------------------- own messages

  lemma UpdateAddsNoFault(m: Monitor, lower: string -> string, event: string, detail: Detail, now: Time)
    ensures Updated(m, lower, event, detail, now).link == m.link
    ensures ChainOf(Updated(m, lower, event, detail, now).flags) == ChainOf(m.flags)
  {
    var ns := EventNotices(lower, event, detail);
    EventNoticesOrdinary(lower, event, detail);
    OrdinaryCountsNothing(ns, now);
    ChainOfConcat(m.flags, Stamp(ns, now));
  }

  lemma VerifiedAddsFaults(m: Monitor, wire: Wire, raw: Raw, now: Time)
    ensures Verified(m, wire, raw, now).link == Advance(wire, raw)
    ensures ChainOf(Verified(m, wire, raw, now).flags) ==
            ChainOf(m.flags) + ChainNotices(Verify(m.link, wire.header(raw)))
  {
    var faults := Verify(m.link, wire.header(raw));
    ChainOfChainNotices(faults, now);
    ChainOfConcat(m.flags, Stamp(ChainNotices(faults), now));
  }

  lemma TickAddsNoFault(m: Monitor, now: Time)
    ensures Ticked(m, now).link == m.link && ChainOf(Ticked(m, now).flags) == ChainOf(m.flags)
  {
    var stamped := Stamp([Notice(StudentDisconnected, Medium)], now);
    assert stamped[..0] == [];
    assert ChainOf(stamped) == [];
    ChainOfConcat(m.flags, stamped);
  }

  /** The chain notices on the record of a connection's student. */
  function ChainRecord(w: World, c: ExamClient): seq<Notice>
    requires Watched(w, c)
  {
    ChainOf(MonitorOf(w, c).flags)
  }

  /** The chain of connection `c` went to `link'`, and its record was cleared or kept and gained the faults `added`. */
  ghost predicate Moved(w: World, w': World, c: ExamClient, link': Link, cleared: bool, added: seq<Fault>) {
    && Watched(w, c) && Watched(w', c)
    && w'.clients[c].cheating == w.clients[c].cheating
    && MonitorOf(w', c).link == link'
    && ChainRecord(w', c) == (if cleared then [] else ChainRecord(w, c)) + ChainNotices(added)
  }

  lemma OwnMessageMoves(env: Env, w: World, c: ExamClient, raw: Raw, id: Id, cell: CheatingState, now: Time)
    requires InSession(w, c) && env.decode(raw).Some?
    requires env.decode(raw).value.Login? ==>
      LoginStatus(w, c, env.decode(raw).value.name, env.decode(raw).value.runId) != 0
    ensures Watched(w, c)
    ensures Moved(w, Deliver(env, w, c, raw, id, cell, now), c,
                  Advance(env.wire, raw), false, Verify(MonitorOf(w, c).link, env.wire.header(raw)))
  {
    assert ClientOwned(w, w.clients[c]);
    var call := env.decode(raw).value;
    var w1 := CheckChain(env, w, c, raw, now);
    CheckChainSameOwners(env, w, c, raw, now);
    CheckChainSameRows(env, w, c, raw, now);
    VerifiedAddsFaults(MonitorOf(w, c), env.wire, raw, now);
    assert MonitorOf(w1, c) == Verified(MonitorOf(w, c), env.wire, raw, now);
    if call.Login? {
      LoginStatusSameRows(w, w1, c, call.name, call.runId);
    }
    OwnCall(env, w1, c, call, id, cell, now);
  }

  lemma OwnCall(env: Env, w: World, c: ExamClient, call: Call, id: Id, cell: CheatingState, now: Time)
    requires Watched(w, c)
    requires call.Login? ==> LoginStatus(w, c, call.name, call.runId) != 0
    ensures Moved(w, Dispatch(env, w, c, call, id, cell, now), c, MonitorOf(w, c).link, false, [])
  {
    if call.Event? {
      OwnEvent(env, w, c, call.event, call.detail, id, now);
    }
  }

  lemma OwnEvent(env: Env, w: World, c: ExamClient, event: string, detail: Detail, id: Id, now: Time)
    requires Watched(w, c)
    ensures Moved(w, DoEvent(env, w, c, event, detail, id, now), c, MonitorOf(w, c).link, false, [])
  {
    var m := MonitorOf(w, c);
    UpdateAddsNoFault(m.(finished := m.finished || event == STUDENT_FINISHED), env.lower, event, detail, now);
  }

  /** The reply to a login does not depend on statistics or monitors. */
  lemma LoginStatusSameRows(w: World, w': World, c: ExamClient, name: string, runId: Id)
    requires SameRows(w.db, w'.db) && w'.clients == w.clients && UniqueNames(w.db)
    ensures LoginStatus(w', c, name, runId) == LoginStatus(w, c, name, runId)
  {
    assert forall id :: Matches(w'.db, id, runId, name) <==> Matches(w.db, id, runId, name);
  }

  /**
   A second accepted login on a connection leaves the chain at its start: nothing takes the place of the missing
   fix-up, so the next message is flagged unless it is numbered 0, and its digest is not compared.
   */
  lemma SecondLoginRestartsChain(env: Env, w: World, step: Step, c: ExamClient, next: Header)
    requires InSession(w, c) && Legal(w, step) && Relogin(env, w, step, c)
    ensures
      var w' := Next(env, w, step);
      && Watched(w', c) && MonitorOf(w', c).link == Link(0, "")
      && Verify(MonitorOf(w', c).link, next) == if next.number == 0 then [] else [SeqMismatch]
  {
    var v := w.(now := step.now);
    var raw := step.action.raw;
    var call := env.decode(raw).value;
    assert ClientOwned(w, w.clients[c]);
    var w1 := CheckChain(env, v, c, raw, v.now);
    CheckChainSameOwners(env, v, c, raw, v.now);
    CheckChainSameRows(env, v, c, raw, v.now);
    LoginStatusSameRows(v, w1, c, call.name, call.runId);
    assert LoginStatus(v, c, call.name, call.runId) == LoginStatus(w, c, call.name, call.runId);
  }

  // ---------------------------------------------------------------- one step

  /** The faults a step adds to the student of connection `c`: those of its own message, if it is one. */
  function Added(env: Env, link: Link, step: Step, c: ExamClient): seq<Fault> {
    if OwnMessage(env, step, c) then Verify(link, env.wire.header(step.action.raw)) else []
  }

  function LinkNext(env: Env, link: Link, step: Step, c: ExamClient): Link {
    if OwnMessage(env, step, c) then Advance(env.wire, step.action.raw) else link
  }

  lemma CheckerMoves(env: Env, w: World, a: Action, c: ExamClient)
    requires InSession(w, c) && !ConnectionAction(a)
    requires Watched(w, c)
    ensures Moved(w, Act(env, w, a), c, MonitorOf(w, c).link, a == ClearFlagsAction(w.clients[c].studentId), [])
  {
    assert ClientOwned(w, w.clients[c]);
    OtherActionSameOwners(env, w, a);
    CheckerAddsNoFault(env, w, a, w.clients[c].cheating);
  }

  lemma CheckerAddsNoFault(env: Env, w: World, a: Action, s: CheatingState)
    requires MapOwned(w) && !ConnectionAction(a) && s in w.monitors
    ensures s in Act(env, w, a).monitors
    ensures Act(env, w, a).monitors[s].link == w.monitors[s].link
    ensures ChainOf(Act(env, w, a).monitors[s].flags) ==
            if a == ClearFlagsAction(w.monitors[s].studentId) then [] else ChainOf(w.monitors[s].flags)
  {
    if a.HeartbeatTick? {
      TickAddsNoFault(w.monitors[s], w.now);
    } else if !a.ClearFlagsAction? {
      QuietMonitors(env, w, a);
    }
  }

  lemma MessageMoves(env: Env, w: World, step: Step, c: ExamClient)
    requires InSession(w, c) && Legal(w, step) && step.action.Message? && step.now == w.now
    requires !Relogin(env, w, step, c)
    ensures Watched(w, c)
    ensures Moved(w, Act(env, w, step.action), c,
                  LinkNext(env, MonitorOf(w, c).link, step, c), false, Added(env, MonitorOf(w, c).link, step, c))
  {
    assert ClientOwned(w, w.clients[c]);
    var d, raw := step.action.c, step.action.raw;
    if d != c {
      StrangerMessage(env, w, c, d, raw, step.action.id, step.action.cell, w.now);
    } else if OwnMessage(env, step, c) {
      OwnMessageMoves(env, w, c, raw, step.action.id, step.action.cell, w.now);
    }
  }

  lemma NextMoves(env: Env, w: World, step: Step, c: ExamClient)
    requires InSession(w, c) && Legal(w, step)
    requires step.action != Disconnect(c) && !Relogin(env, w, step, c)
    ensures Watched(w, c)
    ensures Moved(w, Next(env, w, step), c, LinkNext(env, MonitorOf(w, c).link, step, c),
                  Clears(step, w.clients[c].studentId), Added(env, MonitorOf(w, c).link, step, c))
  {
    assert ClientOwned(w, w.clients[c]);
    var v := w.(now := step.now);
    SameOwnersKeepOwned(w, v);
    if step.action.Message? {
      assert LogsIn(env, step, c) ==>
        LoginStatus(v, c, env.decode(step.action.raw).value.name, env.decode(step.action.raw).value.runId) ==
        LoginStatus(w, c, env.decode(step.action.raw).value.name, env.decode(step.action.raw).value.runId);
      MessageMoves(env, v, step, c);
    } else if !ConnectionAction(step.action) {
      CheckerMoves(env, v, step.action, c);
    }
  }

  lemma NextSameStudent(env: Env, w: World, step: Step, c: ExamClient)
    requires InSession(w, c) && Legal(w, step) && c in Next(env, w, step).clients
    requires Next(env, w, step).clients[c].cheating == w.clients[c].cheating
    ensures Next(env, w, step).clients[c].studentId == w.clients[c].studentId
  {
    var w' := Next(env, w, step);
    NextKeepsOwned(env, w, step);
    NextKeepsStates(env, w, step);
    assert ClientOwned(w, w.clients[c]) && ClientOwned(w', w'.clients[c]);
    assert w'.states[w.clients[c].studentId] == w.clients[c].cheating;
  }

  // ---------------------------------------------------------------- whole runs

  /** The record, when it was `before` at the start: a clear empties it, and each own message adds its faults. */
  function RecordAfter(env: Env, link: Link, before: seq<Notice>, steps: seq<Step>, c: ExamClient, sid: Id): seq<Notice> {
    if steps == [] then before
    else
      var n := |steps| - 1;
      var mid := LinkAfter(env.wire, link, OwnMessages(env, steps[..n], c));
      (if Clears(steps[n], sid) then [] else RecordAfter(env, link, before, steps[..n], c, sid)) +
      ChainNotices(Added(env, mid, steps[n], c))
  }

  ghost predicate NoClears(steps: seq<Step>, sid: Id) {
    forall i :: 0 <= i < |steps| ==> !Clears(steps[i], sid)
  }

  lemma OneMoreStep(env: Env, link: Link, steps: seq<Step>, c: ExamClient)
    requires steps != []
    ensures
      var before, all := OwnMessages(env, steps[..|steps| - 1], c), OwnMessages(env, steps, c);
      var mid, last := LinkAfter(env.wire, link, before), steps[|steps| - 1];
      && LinkAfter(env.wire, link, all) == LinkNext(env, mid, last, c)
      && FaultsFrom(env.wire, link, all) == FaultsFrom(env.wire, link, before) + Added(env, mid, last, c)
  {
    var all := OwnMessages(env, steps, c);
    if OwnMessage(env, steps[|steps| - 1], c) {
      assert all[..|all| - 1] == OwnMessages(env, steps[..|steps| - 1], c);
    } else {
      assert all == OwnMessages(env, steps[..|steps| - 1], c);
    }
  }

  lemma OneMoreNotices(env: Env, link: Link, steps: seq<Step>, c: ExamClient)
    requires steps != []
    ensures
      var before := OwnMessages(env, steps[..|steps| - 1], c);
      ChainNotices(FaultsFrom(env.wire, link, OwnMessages(env, steps, c))) ==
      ChainNotices(FaultsFrom(env.wire, link, before)) +
      ChainNotices(Added(env, LinkAfter(env.wire, link, before), steps[|steps| - 1], c))
  {
    var before := OwnMessages(env, steps[..|steps| - 1], c);
    OneMoreStep(env, link, steps, c);
    ChainNoticesConcat(FaultsFrom(env.wire, link, before),
                       Added(env, LinkAfter(env.wire, link, before), steps[|steps| - 1], c));
  }

  lemma Reassociate(x: seq<Notice>, y: seq<Notice>, z: seq<Notice>)
    ensures (x + y) + z == x + (y + z)
  {
  }

  /** While nothing is cleared, the record grows by the faults of the connection's own messages. */
  lemma {:induction false} RecordGrows(env: Env, link: Link, before: seq<Notice>, steps: seq<Step>, c: ExamClient,
                                       sid: Id)
    requires NoClears(steps, sid)
    ensures RecordAfter(env, link, before, steps, c, sid) ==
            before + ChainNotices(FaultsFrom(env.wire, link, OwnMessages(env, steps, c)))
  {
    if steps == [] {
    } else {
      var n := |steps| - 1;
      var mid := LinkAfter(env.wire, link, OwnMessages(env, steps[..n], c));
      RecordGrows(env, link, before, steps[..n], c, sid);
      assert !Clears(steps[n], sid);
      OneMoreNotices(env, link, steps, c);
      Reassociate(before, ChainNotices(FaultsFrom(env.wire, link, OwnMessages(env, steps[..n], c))),
                  ChainNotices(Added(env, mid, steps[n], c)));
    }
  }

  lemma {:induction false} OwnMessagesConcat(env: Env, a: seq<Step>, b: seq<Step>, c: ExamClient)
    ensures OwnMessages(env, a + b, c) == OwnMessages(env, a, c) + OwnMessages(env, b, c)
  {
    if b == [] {
      assert a + b == a;
    } else {
      var n := |b| - 1;
      assert (a + b)[..|a| + n] == a + b[..n];
      OwnMessagesConcat(env, a, b[..n], c);
    }
  }

  /** The record of a run in two parts goes on from the link and the record of the first part. */
  ghost predicate GoesOn(env: Env, link: Link, before: seq<Notice>, a: seq<Step>, b: seq<Step>, c: ExamClient, sid: Id) {
    RecordAfter(env, link, before, a + b, c, sid) ==
    RecordAfter(env, LinkAfter(env.wire, link, OwnMessages(env, a, c)),
                RecordAfter(env, link, before, a, c, sid), b, c, sid)
  }

  lemma {:induction false} RecordConcat(env: Env, link: Link, before: seq<Notice>, a: seq<Step>, b: seq<Step>,
                                        c: ExamClient, sid: Id)
    ensures GoesOn(env, link, before, a, b, c, sid)
  {
    if b == [] {
      GoesOnWithNothing(env, link, before, a, c, sid);
    } else {
      RecordConcat(env, link, before, a, b[..|b| - 1], c, sid);
      GoesOnStep(env, link, before, a, b, c, sid);
    }
  }

  lemma GoesOnWithNothing(env: Env, link: Link, before: seq<Notice>, a: seq<Step>, c: ExamClient, sid: Id)
    ensures GoesOn(env, link, before, a, [], c, sid)
  {
    assert a + [] == a;
  }

  lemma GoesOnStep(env: Env, link: Link, before: seq<Notice>, a: seq<Step>, b: seq<Step>, c: ExamClient, sid: Id)
    requires b != [] && GoesOn(env, link, before, a, b[..|b| - 1], c, sid)
    ensures GoesOn(env, link, before, a, b, c, sid)
  {
    var n, mid := |b| - 1, LinkAfter(env.wire, link, OwnMessages(env, a, c));
    SplitLast(a, b);
    RecordStep(env, link, before, a + b[..n], b[n], c, sid);
    RecordStep(env, mid, RecordAfter(env, link, before, a, c, sid), b[..n], b[n], c, sid);
    OwnMessagesConcat(env, a, b[..n], c);
    LinkAfterConcat(env.wire, link, OwnMessages(env, a, c), OwnMessages(env, b[..n], c));
  }

  lemma LinkAfterConcat(wire: Wire, link: Link, ms: seq<Raw>, ns: seq<Raw>)
    ensures LinkAfter(wire, link, ms + ns) == LinkAfter(wire, LinkAfter(wire, link, ms), ns)
  {
  }

  lemma RecordStep(env: Env, link: Link, before: seq<Notice>, steps: seq<Step>, last: Step, c: ExamClient, sid: Id)
    ensures RecordAfter(env, link, before, steps + [last], c, sid) ==
            (if Clears(last, sid) then [] else RecordAfter(env, link, before, steps, c, sid)) +
            ChainNotices(Added(env, LinkAfter(env.wire, link, OwnMessages(env, steps, c)), last, c))
  {
    assert (steps + [last])[..|steps|] == steps;
  }

  lemma ClearSendsNothing(env: Env, past: seq<Step>, clear: Step, c: ExamClient, sid: Id)
    requires Clears(clear, sid)
    ensures OwnMessages(env, past + [clear], c) == OwnMessages(env, past, c)
    ensures forall link :: Added(env, link, clear, c) == []
  {
    assert (past + [clear])[..|past|] == past;
  }

  /** After the last clear, the record is the faults of the own messages that came since. */
  lemma RecordSinceClear(env: Env, link: Link, before: seq<Notice>, past: seq<Step>, clear: Step, rest: seq<Step>,
                         c: ExamClient, sid: Id)
    requires Clears(clear, sid) && NoClears(rest, sid)
    ensures
      var mid := LinkAfter(env.wire, link, OwnMessages(env, past, c));
      RecordAfter(env, link, before, past + [clear] + rest, c, sid) ==
      ChainNotices(FaultsFrom(env.wire, mid, OwnMessages(env, rest, c)))
  {
    var mid := LinkAfter(env.wire, link, OwnMessages(env, past, c));
    RecordStep(env, link, before, past, clear, c, sid);
    ClearSendsNothing(env, past, clear, c, sid);
    RecordConcat(env, link, before, past + [clear], rest, c, sid);
    RecordGrows(env, mid, [], rest, c, sid);
  }

  /** The chain notices one step adds to the record of the connection's student. */
  ghost function Growth(w: World, w': World, c: ExamClient): seq<Notice> {
    if Watched(w, c) && Watched(w', c) && |ChainRecord(w, c)| <= |ChainRecord(w', c)|
    then ChainRecord(w', c)[|ChainRecord(w, c)|..]
    else []
  }

  /** All chain notices the steps of a run add, cleared later or not. */
  ghost function Gained(env: Env, w: World, steps: seq<Step>, c: ExamClient): seq<Notice> {
    if steps == [] then []
    else
      var n := |steps| - 1;
      Gained(env, w, steps[..n], c) + Growth(Exec(env, w, steps[..n]), Exec(env, w, steps), c)
  }

  lemma MovedGrowth(w: World, w': World, c: ExamClient, link': Link, cleared: bool, added: seq<Fault>)
    requires Moved(w, w', c, link', cleared, added) && (cleared ==> added == [])
    ensures Growth(w, w', c) == ChainNotices(added)
  {
  }

  /** The connection keeps its student and the student's monitor. */
  ghost predicate SameSession(w: World, w': World, c: ExamClient) {
    && InSession(w, c) && InSession(w', c) && Watched(w, c) && Watched(w', c)
    && w'.clients[c].studentId == w.clients[c].studentId && w'.clients[c].cheating == w.clients[c].cheating
  }

  /**
   During one session, the link of the student, the chain notices on its record and those the server adds on the way
   are those of the connection's own messages alone, for every interleaving with everything else the server does.
   */
  lemma {:induction false} SessionIsIsolated(env: Env, w: World, steps: seq<Step>, c: ExamClient)
    requires InSession(w, c) && LegalRun(env, w, steps) && OneSession(env, w, steps, c)
    ensures
      var w', own := Exec(env, w, steps), OwnMessages(env, steps, c);
      && SameSession(w, w', c)
      && MonitorOf(w', c).link == LinkAfter(env.wire, MonitorOf(w, c).link, own)
      && ChainRecord(w', c) ==
           RecordAfter(env, MonitorOf(w, c).link, ChainRecord(w, c), steps, c, w.clients[c].studentId)
      && Gained(env, w, steps, c) == ChainNotices(FaultsFrom(env.wire, MonitorOf(w, c).link, own))
  {
    assert ClientOwned(w, w.clients[c]);
    if steps == [] {
    } else {
      var n := |steps| - 1;
      SessionIsIsolated(env, w, steps[..n], c);
      SessionStep(env, w, steps, c);
    }
  }

  lemma SessionStep(env: Env, w: World, steps: seq<Step>, c: ExamClient)
    requires steps != [] && LegalRun(env, w, steps) && OneSession(env, w, steps, c)
    requires SameSession(w, Exec(env, w, steps[..|steps| - 1]), c)
    requires MonitorOf(Exec(env, w, steps[..|steps| - 1]), c).link ==
             LinkAfter(env.wire, MonitorOf(w, c).link, OwnMessages(env, steps[..|steps| - 1], c))
    ensures
      var mid, w', last := Exec(env, w, steps[..|steps| - 1]), Exec(env, w, steps), steps[|steps| - 1];
      var before := OwnMessages(env, steps[..|steps| - 1], c);
      var added := Added(env, MonitorOf(mid, c).link, last, c);
      && SameSession(w, w', c)
      && MonitorOf(w', c).link == LinkAfter(env.wire, MonitorOf(w, c).link, OwnMessages(env, steps, c))
      && ChainRecord(w', c) ==
           (if Clears(last, w.clients[c].studentId) then [] else ChainRecord(mid, c)) + ChainNotices(added)
      && ChainNotices(FaultsFrom(env.wire, MonitorOf(w, c).link, OwnMessages(env, steps, c))) ==
         ChainNotices(FaultsFrom(env.wire, MonitorOf(w, c).link, before)) + Growth(mid, w', c)
  {
    var n, link := |steps| - 1, MonitorOf(w, c).link;
    var mid, w' := Exec(env, w, steps[..n]), Exec(env, w, steps);
    NextMoves(env, mid, steps[n], c);
    NextSameStudent(env, mid, steps[n], c);
    NextKeepsOwned(env, mid, steps[n]);
    OneMoreStep(env, link, steps, c);
    MovedGrowth(mid, w', c, MonitorOf(w', c).link, Clears(steps[n], w.clients[c].studentId),
                Added(env, MonitorOf(mid, c).link, steps[n], c));
    ChainNoticesConcat(FaultsFrom(env.wire, link, OwnMessages(env, steps[..n], c)),
                       Added(env, MonitorOf(mid, c).link, steps[n], c));
  }

  /** A session on the server: an accepted login on a new connection, then any run in which it stays the session. */
  ghost predicate Session(env: Env, w: World, login: Step, steps: seq<Step>, c: ExamClient) {
    && Owned(w) && Legal(w, login) && OwnMessage(env, login, c)
    && w.clients[c].cheating == null && Relogin(env, w, login, c)
    && LegalRun(env, Next(env, w, login), steps)
    && OneSession(env, Next(env, w, login), steps, c)
  }

  lemma LoginOpens(env: Env, w: World, login: Step, c: ExamClient)
    requires Owned(w) && Legal(w, login) && OwnMessage(env, login, c)
    requires w.clients[c].cheating == null && Relogin(env, w, login, c)
    ensures
      var w' := Next(env, w, login);
      && InSession(w', c) && Watched(w', c)
      && MonitorOf(w', c).link == Advance(env.wire, login.action.raw)
  {
    NextKeepsOwned(env, w, login);
    var v := w.(now := login.now);
    var call := env.decode(login.action.raw).value;
    LoginStatusSameRows(w, v, c, call.name, call.runId);
    assert CheckChain(env, v, c, login.action.raw, v.now) == v;
  }

  /**
   The chain notices the server adds during a session are those of the check run on the login and the own messages;
   unless a teacher clears the student's record, they are what the session adds to it.
   */
  lemma SessionFaults(env: Env, w: World, login: Step, steps: seq<Step>, c: ExamClient)
    requires Session(env, w, login, steps, c)
    ensures
      var w1 := Next(env, w, login);
      var w2 := Exec(env, w1, steps);
      var ms := [login.action.raw] + OwnMessages(env, steps, c);
      && SameSession(w1, w2, c)
      && MonitorOf(w2, c).link == Advance(env.wire, ms[|ms| - 1])
      && Gained(env, w1, steps, c) == ChainNotices(Faults(env.wire, ms))
      && (NoClears(steps, w1.clients[c].studentId) ==>
            ChainRecord(w2, c) == ChainRecord(w1, c) + ChainNotices(Faults(env.wire, ms)))
  {
    LoginOpens(env, w, login, c);
    var w1 := Next(env, w, login);
    SessionIsIsolated(env, w1, steps, c);
    FaultsAfterLogin(env.wire, login.action.raw, OwnMessages(env, steps, c));
    if NoClears(steps, w1.clients[c].studentId) {
      RecordGrows(env, MonitorOf(w1, c).link, ChainRecord(w1, c), steps, c, w1.clients[c].studentId);
    }
  }

  /** On the server, a session gains no chain flag exactly when its messages are an honest chain. */
  lemma ServerAcceptsIffHonest(env: Env, w: World, login: Step, steps: seq<Step>, c: ExamClient)
    requires Session(env, w, login, steps, c)
    requires InRange(env.wire.header(login.action.raw).number, |OwnMessages(env, steps, c)|)
    ensures
      var ms := [login.action.raw] + OwnMessages(env, steps, c);
      Gained(env, Next(env, w, login), steps, c) == [] <==> Honest(env.wire, ms, env.wire.header(login.action.raw).number)
  {
    var ms := [login.action.raw] + OwnMessages(env, steps, c);
    SessionFaults(env, w, login, steps, c);
    CleanIffHonest(env.wire, ms);
    assert |ChainNotices(Faults(env.wire, ms))| == |Faults(env.wire, ms)|;
  }

  /**
   Two sessions on servers with the same digest, from logins with the same number, that gain no chain flag and end in
   the same message consist of the same messages.
   */
  lemma ServerCommitsToHistory(env: Env, w: World, login: Step, steps: seq<Step>, c: ExamClient,
                               v: World, other: Step, others: seq<Step>, d: ExamClient)
    requires Injective(env.wire)
    requires Session(env, w, login, steps, c) && Session(env, v, other, others, d)
    requires Gained(env, Next(env, w, login), steps, c) == [] && Gained(env, Next(env, v, other), others, d) == []
    requires env.wire.header(login.action.raw).number == env.wire.header(other.action.raw).number
    requires InRange(env.wire.header(login.action.raw).number, |OwnMessages(env, steps, c)|)
    requires InRange(env.wire.header(other.action.raw).number, |OwnMessages(env, others, d)|)
    requires Last(login.action.raw, OwnMessages(env, steps, c)) == Last(other.action.raw, OwnMessages(env, others, d))
    ensures login.action.raw == other.action.raw && OwnMessages(env, steps, c) == OwnMessages(env, others, d)
  {
    SessionIsClean(env, w, login, steps, c);
    SessionIsClean(env, v, other, others, d);
    SameHistory(env.wire, login.action.raw, OwnMessages(env, steps, c), other.action.raw, OwnMessages(env, others, d));
  }

  /** The last message of a session. */
  function Last(login: Raw, own: seq<Raw>): Raw {
    if own == [] then login else own[|own| - 1]
  }

  lemma SameHistory(wire: Wire, m: Raw, ms: seq<Raw>, n: Raw, ns: seq<Raw>)
    requires Injective(wire) && Faults(wire, [m] + ms) == [] && Faults(wire, [n] + ns) == []
    requires wire.header(m).number == wire.header(n).number && Last(m, ms) == Last(n, ns)
    requires InRange(wire.header(m).number, |ms|) && InRange(wire.header(n).number, |ns|)
    ensures m == n && ms == ns
  {
    HistoryCommitment(wire, [m] + ms, [n] + ns);
    SameFirst(m, ms, n, ns);
  }

  lemma SameFirst(m: Raw, ms: seq<Raw>, n: Raw, ns: seq<Raw>)
    requires [m] + ms == [n] + ns
    ensures m == n && ms == ns
  {
    assert ([m] + ms)[0] == m && ([n] + ns)[0] == n;
    assert ([m] + ms)[1..] == ms && ([n] + ns)[1..] == ns;
  }

  lemma SessionIsClean(env: Env, w: World, login: Step, steps: seq<Step>, c: ExamClient)
    requires Session(env, w, login, steps, c) && Gained(env, Next(env, w, login), steps, c) == []
    ensures Faults(env.wire, [login.action.raw] + OwnMessages(env, steps, c)) == []
  {
    SessionFaults(env, w, login, steps, c);
    var faults := Faults(env.wire, [login.action.raw] + OwnMessages(env, steps, c));
    assert |ChainNotices(faults)| == |faults|;
  }

  /**
   On the server, when what arrives of an honest session is missing, repeated or out of order in `k` places, the
   student gains exactly `k` high flags of each kind.  Unless a teacher clears the record, they are all on it in the
   end, and the score, less the weight of the other flags on record, has risen by exactly six points a place.
   */
  lemma ServerCountsJumps(env: Env, w: World, login: Step, steps: seq<Step>, c: ExamClient,
                          sent: seq<Raw>, first: int, ix: seq<nat>)
    requires Session(env, w, login, steps, c) && Recorded(w)
    requires Injective(env.wire) && Honest(env.wire, sent, first) && InRange(first, |sent|)
    requires Schedule(ix, |sent|)
    requires [login.action.raw] + OwnMessages(env, steps, c) == Deliveries(sent, ix)
    ensures
      var w1 := Next(env, w, login);
      var w2 := Exec(env, w1, steps);
      var added := ChainNotices(FaultPairs(Jumps(ix)));
      && SameSession(w1, w2, c)
      && Gained(env, w1, steps, c) == added
      && (forall n :: n in added ==> n.severity == High)
      && (NoClears(steps, w1.clients[c].studentId) ==>
            && ChainRecord(w2, c) == ChainRecord(w1, c) + added
            && OwnScore(w2, c) == OwnScore(w1, c) + 6 * Jumps(ix))
  {
    SessionFaults(env, w, login, steps, c);
    JumpsAreCounted(env.wire, sent, first, ix);
    var w1 := Next(env, w, login);
    var w2 := Exec(env, w1, steps);
    NextKeepsOwned(env, w, login);
    NextKeepsRecorded(env, w, login);
    ExecKeepsRecorded(env, w1, steps);
    WeightSplits(MonitorOf(w1, c).flags);
    WeightSplits(MonitorOf(w2, c).flags);
    TotalConcat(ChainRecord(w1, c), ChainNotices(FaultPairs(Jumps(ix))));
    TotalOfChainNotices(FaultPairs(Jumps(ix)));
  }

  /** The score of a connection's student less the weight of the flags that are not chain flags. */
  function OwnScore(w: World, c: ExamClient): int
    requires Watched(w, c)
  {
    MonitorOf(w, c).score - Total(OthersOf(MonitorOf(w, c).flags))
  }
}
