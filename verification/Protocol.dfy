/**
 The exam server as a state machine: websocket connections, the map of student monitors and the tables.

 One handler, one websocket message and one pass of a checker is one step.  `Exec` runs any list of steps.
 */
module Protocol {
  import opened Basics
  import opened Chain
  import opened CheatingEngine
  import opened Database

  datatype Role = NoRole | StudentRole | TeacherRole

  /** A decoded message; parameters that do not decode have empty strings, which take the same branch. */
  datatype Call =
    | Login(name: string, runId: Id)
    | TeacherLogin(name: string, password: string, runId: Id)
    | Event(event: string, detail: Detail)
    | Unknown

  /** The library functions the server relies on: digest and header, JSON decoding, lower-casing, password check. */
  datatype Env = Env(wire: Wire, decode: Raw -> Option<Call>, lower: string -> string,
                     verify: (string, string) -> bool)

  /** The value of one connection. */
  datatype ClientView = ClientView(
    role: Role, studentId: Id, teacherId: Id, runId: Id, name: string,
    cheating: CheatingState?, finished: bool)

  const NEW_CLIENT := ClientView(NoRole, "", "", "", "", null, false)

  class ExamClient {
    var role: Role
    var studentId: Id
    var teacherId: Id
    var runId: Id
    var name: string
    var cheating: CheatingState?
    var finished: bool

    function View(): ClientView
      reads this
    {
      ClientView(role, studentId, teacherId, runId, name, cheating, finished)
    }

    constructor ()
      ensures View() == NEW_CLIENT
    {
      role, studentId, teacherId, runId, name, cheating, finished := NoRole, "", "", "", "", null, false;
    }
  }

  datatype World = World(
    clients: map<ExamClient, ClientView>,
    states: map<Id, CheatingState>,
    monitors: map<CheatingState, Monitor>,
    db: Db,
    now: Time)

  ghost const START := World(map[], map[], map[], EMPTY_DB, 0)

  datatype Action =
    | Connect(c: ExamClient)
    | Disconnect(c: ExamClient)
    | Message(c: ExamClient, raw: Raw, id: Id, cell: CheatingState)   // `id` and `cell`: what it would allocate
    | HeartbeatTick
    | ExpiryTick
    | RegisterTeacherAction(id: Id, name: string, password: string, hash: string)
    | CreateExamAction(id: Id, createdBy: Id, name: string, settings: Settings)
    | UpdateExamAction(id: Id, name: string, newSettings: Option<Settings>)
    | DeleteExamAction(id: Id)
    | CreateRunAction(id: Id, examId: Id)
    | DeleteRunAction(id: Id)
    | RegisterStudentAction(id: Id, runId: Id, name: string)
    | SetStatusAction(runId: Id, status: Option<RunStatus>)
    | ClearFlagsAction(studentId: Id)

  datatype Step = At(now: Time, action: Action)

  // ---------------------------------------------------------------- messages

  function PutClient(w: World, c: ExamClient, v: ClientView): World {
    w.(clients := w.clients[c := v])
  }

  function PutMonitor(w: World, s: CheatingState, m: Monitor): World {
    w.(monitors := w.monitors[s := m])
  }

  /** Stores a changed monitor and, when flags were added, also writes it to the student's row. */
  function Record(w: World, s: CheatingState, before: Monitor, after: Monitor): World {
    var w' := PutMonitor(w, s, after);
    if |after.flags| > |before.flags| then w'.(db := SaveStats(w'.db, after)) else w'
  }

  /** The monitor of a connection's student, when it has one. */
  predicate Watched(w: World, c: ExamClient) {
    c in w.clients && w.clients[c].cheating != null && w.clients[c].cheating in w.monitors
  }

  function MonitorOf(w: World, c: ExamClient): Monitor
    requires Watched(w, c)
  {
    w.monitors[w.clients[c].cheating]
  }

  function CheckChain(env: Env, w: World, c: ExamClient, raw: Raw, now: Time): World {
    if Watched(w, c)
    then Record(w, w.clients[c].cheating, MonitorOf(w, c), Verified(MonitorOf(w, c), env.wire, raw, now))
    else w
  }

  /** The status code of the reply to a login; 0 is success. */
  ghost function LoginStatus(w: World, c: ExamClient, name: string, runId: Id): int {
    if name == "" || runId == "" then -1
    else match FindStudent(w.db, runId, name)
      case None => 1
      case Some(sid) =>
        if RunIs(w.db, runId, Finished) then 3
        else if RunIs(w.db, runId, Pending) then 4
        else if HasFinished(w.db.events, sid) then 5
        else if exists d :: d in w.clients && d != c && w.clients[d].studentId == sid then 2
        else 0
  }

  /** An accepted login: the student's monitor is the stored one, or the new `cell` for a first login. */
  function DoLogin(w: World, c: ExamClient, sid: Id, cell: CheatingState, now: Time): World
    requires c in w.clients && sid in w.db.students
  {
    LoginWith(w, c, sid, if sid in w.states then w.states[sid] else cell, now)
  }

  function LoginWith(w: World, c: ExamClient, sid: Id, s: CheatingState, now: Time): World
    requires c in w.clients && sid in w.db.students
  {
    var row := w.db.students[sid];
    var m0 := if sid in w.states && s in w.monitors then w.monitors[s] else NewMonitor(sid, row.runId, now);
    var m := ChainReset(m0).(studentName := row.name, connected := true, lastHeartbeat := now);
    var v := w.clients[c].(role := StudentRole, studentId := sid, runId := row.runId, name := row.name, cheating := s);
    w.(clients := w.clients[c := v], states := w.states[sid := s], monitors := w.monitors[s := m],
       db := SaveStats(w.db, m))
  }

  function TeacherLoginStatus(env: Env, w: World, name: string, password: string, runId: Id): int {
    if name == "" || password == "" || runId == "" then -1
    else match TeacherNamed(w.db.teachers, name)
      case None => 1
      case Some(t) => if env.verify(t.passwordHash, password) then 0 else 1
  }

  function DoTeacherLogin(w: World, c: ExamClient, t: Teacher, runId: Id): World
    requires c in w.clients
  {
    PutClient(w, c, w.clients[c].(role := TeacherRole, teacherId := t.id, runId := runId, name := t.name))
  }

  function EventStatus(w: World, c: ExamClient, event: string, id: Id): int
    requires c in w.clients
  {
    var v := w.clients[c];
    if v.studentId == "" || event == "" then -1
    else if v.finished && event != STUDENT_FINISHED then -1
    else if !RunIs(w.db, v.runId, Running) then -1
    else if EventIdTaken(w.db.events, id) then -1
    else 0
  }

  function DoEvent(env: Env, w: World, c: ExamClient, event: string, detail: Detail, id: Id, now: Time): World
    requires c in w.clients
  {
    var v := w.clients[c];
    var row := EventRow(id, v.studentId, v.runId, event, now);
    var done := event == STUDENT_FINISHED;
    var w1 := PutClient(w.(db := w.db.(events := w.db.events + [row])), c, v.(finished := v.finished || done));
    if Watched(w1, c)
    then
      var m := MonitorOf(w1, c);
      Record(w1, v.cheating, m, Updated(m.(finished := m.finished || done), env.lower, event, detail, now))
    else w1
  }

  ghost function ReplyStatus(env: Env, w: World, c: ExamClient, call: Call, id: Id): int
    requires c in w.clients
  {
    match call
    case Login(name, runId) => LoginStatus(w, c, name, runId)
    case TeacherLogin(name, password, runId) => TeacherLoginStatus(env, w, name, password, runId)
    case Event(event, _) => EventStatus(w, c, event, id)
    case Unknown => -1
  }

  /** The handler of one decoded message.  A reply other than 0 changes nothing. */
  ghost function Dispatch(env: Env, w: World, c: ExamClient, call: Call, id: Id, cell: CheatingState, now: Time): World
    requires c in w.clients
  {
    if ReplyStatus(env, w, c, call, id) != 0 then w
    else match call
      case Login(name, runId) => DoLogin(w, c, FindStudent(w.db, runId, name).value, cell, now)
      case TeacherLogin(name, _, runId) => DoTeacherLogin(w, c, TeacherNamed(w.db.teachers, name).value, runId)
      case Event(event, detail) => DoEvent(env, w, c, event, detail, id, now)
      case Unknown => w
  }

  /** The login that attaches a monitor to the connection also starts its chain. */
  function StartChain(env: Env, w: World, c: ExamClient, raw: Raw): World {
    if Watched(w, c)
    then PutMonitor(w, w.clients[c].cheating, MonitorOf(w, c).(link := Advance(env.wire, raw)))
    else w
  }

  ghost function Deliver(env: Env, w: World, c: ExamClient, raw: Raw, id: Id, cell: CheatingState, now: Time): World
    requires c in w.clients
  {
    match env.decode(raw)
    case None => w
    case Some(call) =>
      var w1 := CheckChain(env, w, c, raw, now);
      var w2 := Dispatch(env, w1, c, call, id, cell, now);
      if w.clients[c].cheating == null then StartChain(env, w2, c, raw) else w2
  }

  // ---------------------------------------------------------------- checkers

  predicate EndedClient(v: ClientView, rs: set<Id>) {
    v.runId in rs && v.role == StudentRole
  }

  ghost predicate EndedMonitor(w: World, s: CheatingState, rs: set<Id>) {
    exists c :: c in w.clients && EndedClient(w.clients[c], rs) && w.clients[c].cheating == s
  }

  /** What the notice that these runs have ended does to connections and monitors. */
  ghost function NotifyEnded(w: World, rs: set<Id>): World {
    w.(clients := map c | c in w.clients ::
         w.clients[c].(finished := w.clients[c].finished || EndedClient(w.clients[c], rs)),
       monitors := map s | s in w.monitors ::
         w.monitors[s].(finished := w.monitors[s].finished || EndedMonitor(w, s, rs)))
  }

  function ExpiredRuns(db: Db, now: Time): set<Id> {
    set r | r in db.runs && Expired(db, r, now)
  }

  ghost function DoExpiry(w: World): World {
    var rs := ExpiredRuns(w.db, w.now);
    NotifyEnded(w.(db := CloseRuns(w.db, rs, w.now)), rs)
  }

  /** Is this student's monitor flagged by a pass of the heartbeat checker at `now`? */
  predicate Lapsed(w: World, sid: Id, now: Time) {
    sid in w.states && w.states[sid] in w.monitors && Silent(w.monitors[w.states[sid]], now)
  }

  ghost function DoHeartbeats(w: World): World {
    w.(monitors := map s | s in w.monitors :: Ticked(w.monitors[s], w.now),
       db := w.db.(students := map sid | sid in w.db.students ::
         if Lapsed(w, sid, w.now)
         then w.db.students[sid].(stats := Some(Ticked(w.monitors[w.states[sid]], w.now)))
         else w.db.students[sid]))
  }

  function DoClear(w: World, sid: Id): World {
    if sid == "" then w
    else if sid in w.states && w.states[sid] in w.monitors then
      var m := w.monitors[w.states[sid]].(flags := [], score := 0);
      PutMonitor(w, w.states[sid], m).(db := SaveStats(w.db, m))
    else w.(db := ClearStats(w.db, sid))
  }

  // ---------------------------------------------------------------- steps and runs

  ghost function Act(env: Env, w: World, a: Action): World {
    match a
    case Connect(c) => if c in w.clients then w else PutClient(w, c, NEW_CLIENT)
    case Disconnect(c) => w.(clients := w.clients - {c})
    case Message(c, raw, id, cell) => if c in w.clients then Deliver(env, w, c, raw, id, cell, w.now) else w
    case HeartbeatTick => DoHeartbeats(w)
    case ExpiryTick => DoExpiry(w)
    case RegisterTeacherAction(id, name, password, hash) => w.(db := RegisterTeacher(w.db, id, name, password, hash).0)
    case CreateExamAction(id, owner, name, settings) => w.(db := CreateExam(w.db, id, owner, name, settings).0)
    case UpdateExamAction(id, name, settings) => w.(db := UpdateExam(w.db, id, name, settings).0)
    case DeleteExamAction(id) => w.(db := DeleteExam(w.db, id).0)
    case CreateRunAction(id, examId) => w.(db := CreateRun(w.db, id, examId).0)
    case DeleteRunAction(id) => w.(db := DeleteRun(w.db, id).0)
    case RegisterStudentAction(id, runId, name) => w.(db := RegisterStudent(w.db, id, runId, name).0)
    case SetStatusAction(runId, status) => DoSetStatus(w, runId, status)
    case ClearFlagsAction(sid) => DoClear(w, sid)
  }

  ghost function DoSetStatus(w: World, runId: Id, status: Option<RunStatus>): World {
    var (db, http) := SetStatus(w.db, runId, status, w.now);
    var w' := w.(db := db);
    if http == Success && status == Some(Finished) then NotifyEnded(w', {runId}) else w'
  }

  ghost function Next(env: Env, w: World, step: Step): World {
    Act(env, w.(now := step.now), step.action)
  }

  ghost function Exec(env: Env, w: World, steps: seq<Step>): World {
    if steps == [] then w else Next(env, Exec(env, w, steps[..|steps| - 1]), steps[|steps| - 1])
  }

  lemma SplitLast<T>(a: seq<T>, b: seq<T>)
    requires b != []
    ensures a + b == (a + b[..|b| - 1]) + [b[|b| - 1]] && b == b[..|b| - 1] + [b[|b| - 1]]
  {
  }

  lemma ExecStep(env: Env, w: World, steps: seq<Step>, last: Step)
    ensures Exec(env, w, steps + [last]) == Next(env, Exec(env, w, steps), last)
  {
    assert (steps + [last])[..|steps|] == steps;
  }

  /** A run in two parts. */
  lemma {:induction false} ExecConcat(env: Env, w: World, a: seq<Step>, b: seq<Step>)
    ensures Exec(env, w, a + b) == Exec(env, Exec(env, w, a), b)
  {
    if b == [] {
      assert a + b == a;
    } else {
      var n := |b| - 1;
      ExecConcat(env, w, a, b[..n]);
      SplitLast(a, b);
      ExecStep(env, w, a + b[..n], b[n]);
    }
  }

  /** A new identifier names nothing that tables, connections or monitors still mention. */
  ghost predicate Fresh(w: World, id: Id) {
    && id != ""
    && id !in w.db.exams && id !in w.db.runs && id !in w.db.students && id !in w.states
    && (forall c :: c in w.clients ==> w.clients[c].runId != id)
  }

  /** The clock does not go back, new identifiers are fresh, and a new object is new. */
  ghost predicate Legal(w: World, step: Step) {
    && step.now >= w.now
    && match step.action
       case Connect(c) => c !in w.clients
       case Message(c, _, _, cell) => c in w.clients && cell !in w.monitors
       case CreateExamAction(id, _, _, _) => Fresh(w, id)
       case CreateRunAction(id, _) => Fresh(w, id)
       case RegisterStudentAction(id, _, _) => Fresh(w, id)
       case _ => true
  }

  ghost predicate LegalRun(env: Env, w: World, steps: seq<Step>) {
    if steps == [] then true
    else
      var n := |steps| - 1;
      LegalRun(env, w, steps[..n]) && Legal(Exec(env, w, steps[..n]), steps[n])
  }
}
