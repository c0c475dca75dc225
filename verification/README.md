# Verified model of the exam platform

The platform runs supervised exams.  Students' machines hold a websocket connection to a Go server that watches
heartbeats, message order and reported events, and keeps teachers, exams, runs, students and events in five tables.
The exam application on the student's machine uses asio's stream buffers and completion handlers and talks to a local
service over a pipe.  This project models that logic in Dafny and proves what it keeps over whole runs.

| file | content |
|---|---|
| `Basics.dfy` | optional values, bytes, 64-bit integers |
| `Chain.dfy` | the hash-chained message log: exactness, commitment, loss, replay |
| `CheatingEngine.dfy` | the per-student monitor: its value, and the object that is updated in place |
| `Database.dfy` | the tables and the effect of each HTTP handler |
| `Protocol.dfy` | the server as a state machine: `Act`, `Next`, `Exec` |
| `Server.dfy` | the server as objects, loops and assignments, proved to follow `Protocol` |
| `Ownership.dfy` | connections, students and monitors belong together one to one |
| `Integrity.dfy` | referential integrity of the tables |
| `Finality.dfy` | when finishing is final |
| `Damage.dfy` | one legal run that damages the tables and undoes a finish |
| `Isolation.dfy` | one connection's chain inside the whole server |
| `Messages.dfy` | what each message does, read off tables, connections and monitors |
| `Handlers.dfy` | the same for the checkers and the HTTP handlers |
| `Records.dfy` | persisted records, scores, life and time of a run |
| `Heartbeat.dfy` | the heartbeat checker over whole runs |
| `StreamBuffer.dfy` | the growing stream buffer, and the byte queue it refines |
| `SocketStream.dfy` | the socket stream buffer: exactly once, in order |
| `AlignedAllocation.dfy` | over-aligned memory with a hidden offset |
| `PipeFraming.dfy` | lines over a pipe |

`dafny verify dfyconfig.toml` checks all of it.

## How the server is modelled

A step is one HTTP handler, one websocket message, or one pass of a checker, with one reading of the clock.  `Protocol`
gives the effect of a step as a function on values; a `World` holds the registry of connections, the map from student
to monitor object, the values of the monitor objects and the tables.  `Server` has the source's objects and loops.
Every method ensures that its new state is `Next` of its old one and enters the step in a ghost history; `Valid` says
that the state is what that history reaches from the empty state and that the history is legal.  So what is proved of
every state of a legal run holds of the objects between calls (`ExamServer.Server.Guarantees`).

`Legal` states what a run is assumed to satisfy: the clock does not go back; an identifier drawn for a new exam, run
or student is not one that the tables, the monitors or a connection's run still name; a new object is new.  Messages
come from registered connections.  Nothing is assumed about who logs in where, what messages contain, or how steps
interleave.

The seven HTTP handlers that only change tables are each proved against their function in `Database`, and so are
`HandleSetStatus`, which also marks connections and monitors, and `HandleClearFlags`, which also clears a monitor; the
table below lists `HandleSetStatus` for all of them.

The digest function (SHA-256, section 6.2 of FIPS 180-4), JSON decoding, lower-casing and the password check are
parameters.  Theorems that need an injective digest say `Injective`.  Sequence numbers are 64-bit and the increment
wraps around.

## What was found on the way

- A connection that is logged in as a student and then logs in as a teacher keeps its student but takes over the
  teacher's run.  An event it then reports is stored under a run that is not the student's.  The tables keep their
  integrity over a run exactly as long as no such event is accepted (`Integrity.RunDbSoundIff`), which is so in every
  run without such a login (`Integrity.NoCrossingNoOffRun`).  `Damage.DamageIsReachable` is a legal run that gets there.
- When the row so stored is the student's finish and the other run is deleted, the student can log in again and its
  events are accepted as before (`Damage.FinishIsNotFinal`).  Finishing is final exactly as long as no deletion takes
  all finish rows of a student and leaves the student (`Finality.FinishIsFinalIff`).
- A second accepted login on one connection leaves the chain expecting number 0 with no digest
  (`Isolation.SecondLoginRestartsChain`).
- The chain commits to the whole history exactly when the login number is not negative and the counter does not
  overflow (`Chain.CommitsIff`): a digest is compared only when a positive number is expected.
- Of all ways to lose, repeat and reorder messages of an honest session, losing its tail is the only one that raises
  no flag (`Chain.OnlyLostTailIsSilent`).  A different ending in its place raises none either, but then no message that
  follows is one of the session: two unflagged sessions share a start, and after it nothing (`Chain.CleanSessionsPart`).
- A duration above 153722867 minutes overflows, and the run is closed early (`Records.RunsLastTheirDurationIff`).
- A `prepare` that fails has already moved bytes: contents that start at an offset between 0 and their length
  are damaged (`StreamBuffer.FailureKeepsContentsIff`, and on a buffer object `StreamBuffer.DamagedByPrepare`).  The
  documentation of `prepare` does not mention this; the model follows the code.
- `consume` compares addresses after adding the count to the get pointer and then casts the count to `int`.  It drops
  min(n, size) bytes exactly under the condition `StreamBuffer.ConsumesMin`; the largest count, which is documented to
  empty the buffer, brings the last consumed byte back (`StreamBuffer.ConsumeAllBringsBack`).
- A flush that fails half way does not advance the put area, so its first part is sent again
  (`SocketStream.FailedFlushSendsTwice`, `SocketStream.ExactlyOnceIff`).  Up to and including the first failure the wire
  is a prefix of what was handed over (`SocketStream.WireIsPrefixToFirstFailure`).
- A line that starts with a byte order mark loses it in the pipe (`PipeFraming.RoundTripIff`).
- A line of 2^32 - 1 bytes or more is sent up to a multiple of 2^32 short of its length and then reported as failed
  (`PipeFraming.Pipe.WriteLine`).

## Model

| member | source | states |
|---|---|---|
| `Chain.CleanIffLinked` | backend/main/cheating_engine.go:82-106 | a session raises no chain flag if and only if each message's number is the 64-bit successor of the one before and, when positive, it names the digest of the one before |
| `Chain.CleanIffHonest` | backend/main/cheating_engine.go:82-106 | for a login number of at least 0 and no overflow: clean if and only if the i-th message has number login + i and names the digest of its predecessor |
| `Chain.HistoryCommitment` | backend/main/cheating_engine.go:82-106 | with an injective digest, two clean sessions with the same login number and the same last message are equal, whatever their lengths |
| `Chain.CommitsIff` | backend/main/cheating_engine.go:95-103 | the last message determines every clean session of n messages after a login numbered f if and only if f >= 0 and f + n does not overflow |
| `Chain.JumpsAreCounted` | backend/main/cheating_engine.go:88-103 | an honest session delivered with any losses, repetitions and reorderings raises exactly one fault of each kind at each place where its order is left, and none elsewhere |
| `Chain.OnlyLostTailIsSilent` | backend/main/cheating_engine.go:88-103 | such a delivery raises nothing if and only if it is a prefix of the session |
| `Chain.CleanSessionsPart` | backend/main/cheating_engine.go:82-106 | a message of two clean sessions after logins with the same number stands at the same place in both, inside the start they have in common |
| `CheatingEngine.AddKeepsScored` | backend/main/cheating_engine.go:59-75 | adding flags keeps the score equal to 3 per high, 2 per medium and 1 per low flag on record |
| `CheatingEngine.EventNoticesOrdinary` | backend/main/cheating_engine.go:115-205 | no event raises a chain flag or a disconnect flag |
| `CheatingEngine.CheatingState.constructor` | backend/main/cheating_engine.go:48-54 | a new monitor is connected, without flags, at the start of its chain |
| `CheatingEngine.CheatingState.AddFlag` | backend/main/cheating_engine.go:59-75 | appends one flag and adds 3, 2 or 1 points |
| `CheatingEngine.CheatingState.VerifyChain` | backend/main/cheating_engine.go:82-106 | adds exactly the faults of the check, moves the link on in every case, and returns true if and only if no flag was added |
| `CheatingEngine.CheatingState.ResetChain` | backend/main/cheating_engine.go:108-113 | number 0, no digest |
| `CheatingEngine.CheatingState.Update` | backend/main/cheating_engine.go:115-205 | for every word of the switch exactly the listed flag, severity and points; one high flag of three points per copied file in whose lower-cased path the home directory of the exam account does not occur; the heartbeat time moves for heartbeats only |
| `CheatingEngine.UpdatedEffect` | backend/main/cheating_engine.go:115-205 | the same of the value of the monitor, in every event that the server takes |
| `CheatingEngine.CheatingState.Tick` | backend/main/cheating_engine.go:246-263 | one medium flag of two points and the disconnection if and only if the student is unfinished, connected and silent for more than 10 000 000 000 ns; otherwise nothing |
| `ExamServer.Server.Guarantees` | backend/main/wshandler.go:85-118 | between calls, after any calls: ownership, finality, finished monitors, records, scores and times as in every reachable state, and sound tables unless an event was accepted off its student's run |
| `ExamServer.Server.constructor` | backend/main/wshandler.go:53-56 | the server starts in the empty state |
| `ExamServer.Server.Open` | backend/main/wshandler.go:79-81 | a new connection is the protocol's connect step |
| `ExamServer.Server.AddClient` | backend/main/wshandler.go:58-62 | registers one connection |
| `ExamServer.Server.Close` | backend/main/wshandler.go:81-89 | the end of a connection is the protocol's disconnect step |
| `ExamServer.Server.RemoveClient` | backend/main/wshandler.go:64-68 | removes one connection |
| `ExamServer.Server.SaveToDB` | backend/main/cheating_engine.go:221-230 | writes the monitor to the student's row if there is one |
| `ExamServer.Server.GetCheatingState` | backend/main/cheating_engine.go:41-57 | returns the stored monitor, or stores a new one |
| `ExamServer.Server.HandleMessage` | backend/main/wshandler.go:85-118 | one pass of the read loop takes the server from any valid state to the protocol's message step, and keeps ownership |
| `ExamServer.Server.CheckMessage` | backend/main/wshandler.go:100-108 | the chain check of a watched connection, saved when it adds flags |
| `ExamServer.Server.StartMessage` | backend/main/wshandler.go:112-117 | the first login's message becomes the start of the chain |
| `ExamServer.Server.HandleMethod` | backend/main/wshandler.go:128-139 | dispatches to the handler of the method |
| `ExamServer.Server.ConnectedElsewhere` | backend/main/wshandler.go:241-251 | the loop finds another connection of the student if and only if there is one |
| `ExamServer.Server.WsLogin` | backend/main/wshandler.go:194-299 | the reply status, which `Messages.StudentReplies` reads off the tables, and the new state of an accepted login; a refusal changes nothing |
| `ExamServer.Server.Attach` | backend/main/wshandler.go:253-267 | the connection takes the student's one monitor, restarted and connected |
| `ExamServer.Server.WsTeacherLogin` | backend/main/wshandler.go:375-410 | the reply status, which `Messages.TeacherReplies` reads off the tables and the password check, and the new state |
| `ExamServer.Server.WsEvent` | backend/main/wshandler.go:302-372 | the reply status and the new state, which `Messages.EventMessage` reads off tables, connection and monitor |
| `ExamServer.Server.HeartbeatPass` | backend/main/cheating_engine.go:237-263 | the loop over all monitors is the protocol's heartbeat step |
| `ExamServer.Server.FindExpired` | backend/main/cheating_engine.go:273-309 | collects exactly the expired runs |
| `ExamServer.Server.ExpiryPass` | backend/main/cheating_engine.go:273-316 | closing the expired runs one after the other is the protocol's expiry step, whose effect `Handlers.PassEndsRunsOnTime` and `Handlers.EndOfRunIsHeard` state |
| `ExamServer.Server.NotifyRunEnded` | backend/main/cheating_engine.go:321-346 | marks exactly the student connections of the run and their monitors as finished |
| `ExamServer.Server.HandleSetStatus` | backend/main/handlers.go:566-606 | status and times of the run, and the notice when it ends |
| `Messages.TeacherLoginNeedsPassword` | backend/main/wshandler.go:375-410 | over any message, a connection becomes a teacher's if and only if the message is a teacher login with all fields, the first teacher of that name exists and its hash takes the password; it then has that teacher's id and name and the requested run |
| `Messages.TeacherReplies` | backend/main/wshandler.go:381-405 | 0 for such a login, -1 for a missing field, else 1 |
| `Messages.StudentReplies` | backend/main/wshandler.go:199-251 | -1, 1, 3, 4, 5, 2 and 0 in the order of the refusals, from fields, tables and connections |
| `Messages.FirstLogin` | backend/main/wshandler.go:194-267 | a login on a new connection: fields, monitor and chain start when nothing stands against it, and otherwise no change |
| `Messages.LaterLogin` | backend/main/wshandler.go:194-267 | the same on a connection that has a monitor, after the check of that monitor and with the chain restarted |
| `Messages.EventMessage` | backend/main/wshandler.go:302-372 | when an event is taken, its row, the marks of connection and monitor for a finish, and the flags and points it adds after the chain check; otherwise only the check |
| `Handlers.PassEndsRunsThatAreOver` | backend/main/cheating_engine.go:296-316 | a pass finishes a running run with a duration, with the time of the pass as its end, if and only if now is later than its start plus what 64 bits keep of the duration in nanoseconds |
| `Handlers.PassEndsRunsOnTime` | backend/main/cheating_engine.go:296-316 | up to 153722867 minutes: if and only if now > start + minutes * 60 000 000 000 |
| `Handlers.PassLeavesOtherRuns` | backend/main/cheating_engine.go:276-301 | a pass leaves every other run as it is |
| `Handlers.EndOfRunIsHeard` | backend/main/cheating_engine.go:321-346 | when a pass or a teacher ends a run, exactly its students' connections and their monitors are marked, and nothing else of both changes |
| `Handlers.StatusIsStored` | backend/main/handlers.go:566-606 | status, start and end of the run after a status change, and its replies |
| `Handlers.HeartbeatPassEffect` | backend/main/cheating_engine.go:244-262 | every stored monitor gets exactly its tick, and the row of a flagged student its new record |
| `Handlers.ClearedMonitors` | backend/main/handlers.go:643-674 | clearing empties flags and score of the student's monitor and changes no other |
| `Handlers.ClearedRows` | backend/main/handlers.go:643-674 | the student's row holds the cleared monitor, or nothing without one; no other row changes |
| `Handlers.TeacherIsStored` | backend/main/handlers.go:42-78 | the stored teacher and the replies of a registration |
| `Handlers.ExamIsStored` | backend/main/handlers.go:121-168 | the stored exam, with owner, name and settings as given, and the replies |
| `Handlers.ExamEditIsStored` | backend/main/handlers.go:171-216 | absent fields stay, given ones are stored, and a running run prevents both |
| `Handlers.RunIsStored` | backend/main/handlers.go:524-563 | a new run is pending, without times |
| `Handlers.StudentIsStored` | backend/main/handlers.go:470-521 | a new student has run and name as given and no record; a known name is answered without a change |
| `Handlers.DeleteRunIsExact` | backend/main/handlers.go:250-272 | deleting a run removes it with its students and events, and nothing else |
| `Handlers.DeletionReplies` | backend/main/handlers.go:219-272 | the replies of both deletions; a refused one changes nothing |
| `Database.TeacherNamed` | backend/main/wshandler.go:386-400 | the first teacher of the name in insertion order, and none only if there is none |
| `Database.WithoutRunsKeepsOrder` | backend/main/handlers.go:235-235 | the deletion of events keeps exactly the events of other runs, each as often as it was there, in their old order |
| `Database.KeptAt` | backend/main/handlers.go:235-235 | the positions of the kept events: increasing, and exactly those of other runs |
| `Database.DeleteExamIsExact` | backend/main/handlers.go:234-238 | deleting an exam removes its runs with their students and events, and nothing else |
| `Ownership.NextKeepsOwned` | backend/main/wshandler.go:241-263 | every legal step keeps: one monitor per student and conversely, each connection's monitor is its student's, no student on two connections, names unique in a run |
| `Ownership.ReachableOwned` | backend/main/wshandler.go:241-263 | this holds in every state of every legal run |
| `Ownership.MonitorsAreNeverReplaced` | backend/main/cheating_engine.go:41-57 | over any run, the object stored under a student stays the same |
| `Integrity.CascadeKeepsSound` | backend/main/handlers.go:234-238 | a cascading deletion leaves no orphan, with connections to the deleted runs still open |
| `Integrity.EventKeepsSoundIff` | backend/main/wshandler.go:322-338 | an accepted event keeps the tables sound if and only if the connection is on its student's run |
| `Integrity.NextKeepsDbSoundIff` | backend/main/wshandler.go:322-338 | from sound tables, a legal step leaves the tables sound if and only if it is not an accepted event of a connection that is off its student's run |
| `Integrity.RunDbSoundIff` | backend/main/handlers.go:234-267 | the tables are sound in every state of a run if and only if no step of the run is such an event |
| `Integrity.NoCrossingNoOffRun` | backend/main/wshandler.go:407-410 | no such event is accepted in a run without a teacher login that turns a student's connection to another existing run |
| `Integrity.ReachableSound` | backend/database/database.go:41-69 | without such logins, in every reachable state each event has its student with its run, each student its run, each run its exam, each exam its teacher |
| `Integrity.CrossingCorruptsEvents` | backend/main/wshandler.go:407-410 | from any sound state such a login followed by an accepted event leaves a row of a run that is not the student's |
| `Damage.DamageIsReachable` | backend/main/wshandler.go:302-410 | a legal run from the empty state ends with such a row in the tables |
| `Finality.ReachableFinal` | backend/main/wshandler.go:345-352 | in every reachable state, deletions included, all rows of a student from its first finish row on are finish rows, and its connections are marked |
| `Finality.AcceptedIsAppended` | backend/main/wshandler.go:334-338 | a message appends exactly its accepted event and nothing else |
| `Finality.NextKeepsRetiredIff` | backend/main/wshandler.go:234-251 | a student that cannot log in and whose connections are marked stays so over a step if and only if the step does not delete all its finish rows and leave it |
| `Finality.FinishIsFinalIff` | backend/main/wshandler.go:234-251 | after a finish row, the student stays retired over a run if and only if no step of the run is such a deletion, and then everything accepted for it is a finish event |
| `Finality.FinishIsFinal` | backend/main/wshandler.go:234-251 | so finishing is final in every run without deletions, and in every run in which no event is accepted off its student's run |
| `Damage.FinishIsNotFinal` | backend/main/handlers.go:250-267 | a legal run with a finish row and a legal continuation in which a later event of the student is accepted that is not a finish event |
| `Isolation.StrangerMessage` | backend/main/wshandler.go:100-117 | a message on one connection leaves the monitor and the fields of every other logged-in connection as they are |
| `Isolation.SessionIsIsolated` | backend/main/wshandler.go:100-117 | during a session, the link of the student, the chain flags on its record and those added on the way are those of the connection's own messages, a clear of the record aside, for every interleaving with everything else |
| `Isolation.RecordGrows` | backend/main/cheating_engine.go:82-106 | unless the record is cleared it grows by exactly the faults of the own messages |
| `Isolation.RecordSinceClear` | backend/main/handlers.go:658-667 | after the last clear, the record is exactly the faults of the own messages since |
| `Isolation.SessionFaults` | backend/main/wshandler.go:112-117 | from the accepted login on, the chain flags added by the whole server are those of the check run on the login and the connection's messages, all of them on the record unless it is cleared, and the link is that of the last message |
| `Isolation.ServerAcceptsIffHonest` | backend/main/cheating_engine.go:82-106 | on the whole server a session is given no chain flag if and only if its messages are an honest chain |
| `Isolation.ServerCommitsToHistory` | backend/main/cheating_engine.go:82-106 | two sessions on the server, after logins with the same number, that are given no chain flag and end in the same message consist of the same messages |
| `Isolation.ServerCountsJumps` | backend/main/cheating_engine.go:88-103 | on the whole server k places of loss, repetition or reordering add exactly k high flags of each kind; unless the record is cleared they are all on it, and the score less the weight of the other flags has risen by exactly 6k |
| `Isolation.SecondLoginRestartsChain` | backend/main/wshandler.go:100-117 | after a second accepted login the next message is flagged unless numbered 0 |
| `Records.ReachableRecorded` | backend/main/cheating_engine.go:221-230 | in every reachable state each student's row holds the flags, score, connection and name of its monitor, and each score is the weight of the flags |
| `Records.ReachableTimed` | backend/main/handlers.go:593-602 | in every reachable state a running run has a start, a finished one an end not before its start, and no time is in the future |
| `Records.ExpiredShowsNoTime` | backend/main/wshandler.go:179-188 | an expired run shows 0 seconds, and a run that shows time left is not expired |
| `Records.RemainingIsExact` | backend/main/wshandler.go:179-188 | the seconds shown are the whole seconds until the end |
| `Records.RemainingCountsDown` | backend/main/wshandler.go:179-188 | up to 153722867 minutes, the whole seconds of start + minutes * 60 000 000 000 - now, and 0 after the end |
| `Records.RunsLastTheirDurationIff` | backend/main/cheating_engine.go:296-307 | no run is closed before its duration has passed if and only if the duration is at most 153722867 minutes |
| `Records.ExpiryEndsEvents` | backend/main/cheating_engine.go:296-316 | a pass closes exactly the expired runs, and until a teacher starts such a run again no event of it is accepted on any connection |
| `Records.RunningFixesDuration` | backend/main/handlers.go:195-200 | while a run is running no step changes the duration of its exam |
| `Heartbeat.NextPulse` | backend/main/cheating_engine.go:244-262 | how each step moves heartbeat time, connection, finished mark and disconnect flags of a student; clearing the record moves flags and score only |
| `Heartbeat.OfflineAtMostOncePerLogin` | backend/main/cheating_engine.go:251-253 | over any run, reports of a student as offline, plus one if it counts as connected, never exceed its accepted logins |
| `Heartbeat.MonitorTellsTheRun` | backend/main/cheating_engine.go:121-122 | over any run, the monitor's time is that of the last accepted heartbeat or login, its disconnect flags are the reports of the run since the last clear, and a finished student is never reported again |
| `Heartbeat.OnRecordSinceClear` | backend/main/handlers.go:658-667 | the disconnect flags on record after a clear are as many as the passes that reported the student since |
| `Heartbeat.RegularIsNeverFlagged` | backend/main/cheating_engine.go:244-262 | a student whose accepted heartbeats are at most ten seconds apart is never reported, whatever the times of the checks |
| `Heartbeat.TimelyIsNeverFlagged` | backend/main/cheating_engine.go:244-262 | a student whose heartbeats are within ten seconds of each check is never reported |
| `Heartbeat.SilenceIsFlaggedInTime` | backend/main/cheating_engine.go:235-262 | with checks five seconds apart a student silent since t is reported exactly once, in (t+10, t+15], as soon as there is a check after t+10, and not before |
| `Heartbeat.ReachableFinishersMarked` | backend/main/wshandler.go:345-352 | in every reachable state a student with a finish row has a monitor that is marked as finished |
| `Heartbeat.AcceptedFinishMarks` | backend/main/wshandler.go:345-352 | an accepted finish event marks its student's monitor |
| `Heartbeat.FinishEndsReports` | backend/main/cheating_engine.go:246-250 | after an accepted finish event no heartbeat check of any legal continuation reports the student as offline |
| `StreamBuffer.CastIsExactIff` | exam_app/asio/basic_streambuf.hpp:236-253 | the cast of a count to int is exact if and only if it is at most 2^31 - 1 |
| `StreamBuffer.ToInt` | exam_app/asio/basic_streambuf.hpp:236-253 | the cast is the number between -2^31 and 2^31 - 1 that differs from the count by a multiple of 2^32 |
| `StreamBuffer.ReservedIsExact` | exam_app/asio/basic_streambuf.hpp:308-346 | success exactly within the limit, with no change when there is room, else no consumed bytes in front and just the room asked for or there; failure keeps all offsets and leaves the stated contents |
| `StreamBuffer.CommitIsExactIff` | exam_app/asio/basic_streambuf.hpp:233-238 | a commit moves the first min(n, room) bytes of the room to the contents if and only if that count is at most 2^31 - 1 |
| `StreamBuffer.ConsumeIsExactIff` | exam_app/asio/basic_streambuf.hpp:247-254 | a consume drops the first min(n, size) bytes if and only if the cast keeps that count, or the address sum wraps and the cast of n happens to be the size |
| `StreamBuffer.ConsumeAllBringsBack` | exam_app/asio/basic_streambuf.hpp:247-254 | consuming the largest count puts the last consumed byte back in front |
| `StreamBuffer.PutIsExact` | exam_app/asio/basic_streambuf.hpp:283-306 | putting a byte fails if and only if the buffer is at its limit, which it then leaves as it is; otherwise the byte is appended and takes the first byte of the room |
| `StreamBuffer.FailureContents` | exam_app/asio/basic_streambuf.hpp:321-340 | what a failed prepare leaves as contents, the offsets staying |
| `StreamBuffer.FailureKeepsContentsIff` | exam_app/asio/basic_streambuf.hpp:321-340 | a failed prepare keeps all contents of length n that start at g intact if and only if g = 0 or g >= n |
| `StreamBuffer.RefinesQueue` | exam_app/asio/basic_streambuf.hpp:214-346 | over every run of calls that commits only what was written, keeps counts within the cast and prepares too much only where that does no harm, all replies of the buffer are those of a bounded first-in first-out queue, and so are its contents |
| `StreamBuffer.QueueConserves` | exam_app/asio/basic_streambuf.hpp:214-306 | over any run of that queue, what was taken out followed by what is left is what was there followed by what came in |
| `StreamBuffer.BasicStreambuf.constructor` | exam_app/asio/basic_streambuf.hpp:131-141 | empty contents, room for up to 128 bytes within the limit |
| `StreamBuffer.BasicStreambuf.Size` | exam_app/asio/basic_streambuf.hpp:158-161 | the number of bytes of the input sequence, never above the limit |
| `StreamBuffer.BasicStreambuf.Reserve` | exam_app/asio/basic_streambuf.hpp:308-346 | the array, offsets, capacity and result are those of the model's `Reserved`: fast path, move, growth or failure |
| `StreamBuffer.BasicStreambuf.Prepare` | exam_app/asio/basic_streambuf.hpp:214-219 | succeeds if and only if size + n <= limit; success keeps the contents and gives room for n; failure leaves the stated contents |
| `StreamBuffer.BasicStreambuf.Fill` | exam_app/asio/basic_streambuf.hpp:214-219 | bytes received into the prepared area become the start of the room |
| `StreamBuffer.BasicStreambuf.Commit` | exam_app/asio/basic_streambuf.hpp:233-238 | for every count the new state is that of the cast; up to 2^31 - 1 the first min(n, room) bytes of the room become the end of the contents |
| `StreamBuffer.BasicStreambuf.Consume` | exam_app/asio/basic_streambuf.hpp:247-254 | for every count the new state is that of the wrapped comparison and the cast; where these keep it, the first min(n, size) bytes are dropped |
| `StreamBuffer.BasicStreambuf.Underflow` | exam_app/asio/basic_streambuf.hpp:263-274 | shows the first byte if there is one and makes it readable |
| `StreamBuffer.BasicStreambuf.Overflow` | exam_app/asio/basic_streambuf.hpp:283-306 | appends the byte if and only if the buffer is below its limit, and takes it from the front of the room when there is any |
| `StreamBuffer.BasicStreambuf.MakeRoom` | exam_app/asio/basic_streambuf.hpp:287-298 | a full put area gets room as by a request for 128 bytes or for what is left below the limit |
| `StreamBuffer.BasicStreambuf.Sputc` | exam_app/asio/basic_streambuf.hpp:283-306 | a byte is appended if and only if the buffer is below its limit; the rest of the room stays |
| `StreamBuffer.BasicStreambuf.Sbumpc` | exam_app/asio/basic_streambuf.hpp:263-274 | the first byte is returned and dropped, or nothing from an empty buffer |
| `StreamBuffer.BasicStreambuf.ReadSizeHelper` | exam_app/asio/basic_streambuf.hpp:353-359 | no difference is negative, and the result fits below the limit; it is all that caller and limit allow, or what reaches to the end of the capacity, or 512 bytes if that is farther |
| `StreamBuffer.BasicStreambuf.PrepareRead` | exam_app/asio/basic_streambuf.hpp:353-359 | preparing the preferred size always succeeds |
| `StreamBuffer.Perform` | exam_app/asio/basic_streambuf.hpp:214-306 | over any list of calls, the state of the buffer and the list of replies are those of the model's run |
| `StreamBuffer.DamagedByPrepare` | exam_app/asio/basic_streambuf.hpp:321-340 | a buffer holding 2, 3 after 1 was taken holds 3, 3 after a failed prepare |
| `SocketStream.CallDelivers` | exam_app/asio/basic_socket_streambuf.hpp:427-517 | a successful call adds what it hands over to wire plus put area; a failed one adds a prefix of the put area to the wire and nothing else |
| `SocketStream.RunLength` | exam_app/asio/basic_socket_streambuf.hpp:427-517 | over any run, wire and put area hold as many bytes as were handed over plus those that failed calls had sent |
| `SocketStream.CallIsExact` | exam_app/asio/basic_socket_streambuf.hpp:427-517 | result and effect of every call, from what it is given and how many bytes the network takes |
| `SocketStream.LeakedIffBreaks` | exam_app/asio/basic_socket_streambuf.hpp:449-486 | a call has sent something and failed if and only if it sends the put area and the network takes some of it and not all; it has sent just what the network takes |
| `SocketStream.ExactlyOnceIff` | exam_app/asio/basic_socket_streambuf.hpp:427-517 | over any run and any network, wire followed by put area is what was handed over if and only if the network never takes a put area in part |
| `SocketStream.ExactlyOnce` | exam_app/asio/basic_socket_streambuf.hpp:427-517 | in particular while no call reports the end of file |
| `SocketStream.WireIsPrefixToFirstFailure` | exam_app/asio/basic_socket_streambuf.hpp:427-517 | up to and including the first call that fails, the wire alone is a prefix of what was handed over |
| `SocketStream.FailedFlushSendsTwice` | exam_app/asio/basic_socket_streambuf.hpp:449-486 | a flush after a failed one sends again what the failed one had sent |
| `SocketStream.OutputStream.constructor` | exam_app/asio/basic_socket_streambuf.hpp:525-535 | an empty put area of 512 bytes |
| `SocketStream.OutputStream.Send` | exam_app/asio/basic_socket_streambuf.hpp:449-482 | the send loop puts exactly the plan's prefix on the wire |
| `SocketStream.OutputStream.Overflow` | exam_app/asio/basic_socket_streambuf.hpp:427-499 | the new state and result of `overflow`, buffered and unbuffered |
| `SocketStream.OutputStream.Sputc` | exam_app/asio/basic_socket_streambuf.hpp:427-499 | the new state and result of writing one byte |
| `SocketStream.OutputStream.Sync` | exam_app/asio/basic_socket_streambuf.hpp:501-504 | the new state and result of `sync` |
| `SocketStream.OutputStream.Setbuf` | exam_app/asio/basic_socket_streambuf.hpp:506-517 | the put area is given up if and only if it is empty and no area of length 0 is offered in its place; any other request is refused |
| `SocketStream.Write` | exam_app/asio/basic_socket_streambuf.hpp:427-517 | over any list of calls on a stream object, state and results are those of the run, and everything handed over is on the wire or in the put area, once and in order, if and only if the network never takes a put area in part |
| `SocketStream.InputIsExactlyOnce` | exam_app/asio/basic_socket_streambuf.hpp:373-425 | over any calls and any cutting of the data, the bytes returned followed by the get area are the bytes received, in order |
| `SocketStream.UnderflowTakesChunk` | exam_app/asio/basic_socket_streambuf.hpp:379-423 | an underflow on an empty get area takes the first 504 bytes of the plan's first arrival, when only waiting comes before it, and shows the first of them; every other plan, or a get area that is not empty, brings nothing |
| `SocketStream.ReaderGetsWhatArrives` | exam_app/asio/basic_socket_streambuf.hpp:373-425 | over any calls, the bytes returned followed by the get area are those that were in the get area followed by all bytes the plans deliver, in order |
| `SocketStream.NextReadIsNextByte` | exam_app/asio/basic_socket_streambuf.hpp:379-423 | after any calls, the next read fails if and only if everything received has been returned and the network brings nothing; otherwise it returns the first byte received and not yet returned |
| `SocketStream.InputStream.constructor` | exam_app/asio/basic_socket_streambuf.hpp:525-529 | an empty get area behind the putback zone |
| `SocketStream.InputStream.Underflow` | exam_app/asio/basic_socket_streambuf.hpp:373-425 | what the plan delivers lands behind the 8-byte putback zone, which is untouched; new state and result |
| `SocketStream.InputStream.Sbumpc` | exam_app/asio/basic_socket_streambuf.hpp:373-425 | the new state and result of reading one byte |
| `SocketStream.InputStream.Sgetc` | exam_app/asio/basic_socket_streambuf.hpp:373-425 | the new state and result of looking at the next byte |
| `SocketStream.Read` | exam_app/asio/basic_socket_streambuf.hpp:373-425 | over any list of calls on a stream object, the bytes returned followed by the get area are those in the get area before followed by what the plans deliver, in order |
| `AlignedAllocation.DecodeEncode` | exam_app/asio/any_completion_handler.hpp:148-170 | a distance written to memory is read back |
| `AlignedAllocation.Align` | exam_app/asio/any_completion_handler.hpp:145-146 | the aligned address lies less than one alignment above the base, and is found whenever the slack is one alignment less one |
| `AlignedAllocation.AlignUpIsFirst` | exam_app/asio/any_completion_handler.hpp:145-146 | rounding up gives an aligned address less than one alignment away |
| `AlignedAllocation.LaidAfterAllocation` | exam_app/asio/any_completion_handler.hpp:140-150 | a block in a fresh raw block has a new address and keeps all blocks apart |
| `AlignedAllocation.Memory.Allocate` | exam_app/asio/any_completion_handler.hpp:131-156 | fails if and only if size + align - 1 overflows, and then changes nothing; otherwise the address is aligned, the user's bytes and the hidden word lie inside the raw block, and no byte but the hidden word changes, so every other user's bytes stay |
| `AlignedAllocation.Memory.UserWrite` | exam_app/asio/any_completion_handler.hpp:131-176 | writes of users to their own bytes change no other byte and disturb no hidden distance |
| `AlignedAllocation.Memory.Deallocate` | exam_app/asio/any_completion_handler.hpp:158-176 | hands back exactly the raw block that was taken, start and length; null is ignored |
| `PipeFraming.ReadWritten` | client/client/client.cpp:473-543 | reading what was written gives the lines without byte order marks, then the end of the stream |
| `PipeFraming.RoundTripIff` | client/client/client.cpp:473-543 | the lines come back unchanged if and only if none starts with EF BB BF |
| `PipeFraming.ParsedFirstLine` | client/client/client.cpp:506-532 | a read ends at the first line feed, drops the carriage returns before it and leaves what follows |
| `PipeFraming.WithoutCrIsExact` | client/client/client.cpp:522-523 | no carriage return is left and every other byte is |
| `PipeFraming.NoLineWithoutEnd` | client/client/client.cpp:511-521 | without a line feed a read fails |
| `PipeFraming.MarkIsDropped` | client/client/client.cpp:534-540 | of a line with the mark EF BB BF all that follows is read, of any other all of it |
| `PipeFraming.Pipe.WriteLine` | client/client/client.cpp:473-499 | refuses lines with breaks untouched; otherwise sends the line and its end, or a prefix on failure; with a willing pipe it succeeds if and only if the line has no break and fewer than 2^32 - 1 bytes; ends for every schedule of partial writes |
| `PipeFraming.Pipe.ReadLine` | client/client/client.cpp:506-543 | takes exactly one parsed line off the pipe, or fails at the end of the stream |
| `PipeFraming.Exchange` | client/client/client.cpp:473-543 | for any lines the writer can send and any schedules, the lines read are the lines written if and only if none starts with a byte order mark |

## Left out

- Interleavings inside a step: the source releases the registry lock between the duplicate check and the assignment of
  the student (backend/main/wshandler.go:251-254), reads flags outside the lock (357-361), and reads the clock several
  times in one handler; ownership and finality are claims about atomic steps with one clock reading.
- Notices to teachers, replies beyond their status code, and logging: they do not change the state.
- JSON, bcrypt, TLS, the SQL driver, time texts, file upload and download: library or I/O behaviour.
- Flag texts, event details and exam settings other than the duration: stored and forwarded, never read back.
- The read-only handlers (lists and queries) and the HTTP login, which change nothing.
- Random identifiers: freshness of a new exam, run or student identifier is assumed in `Legal`.
- ExamServer.Server.HandleRegisterStudent: requires a fresh identifier, which is what the generator draws; so do the
  handlers that create exams and runs.
- Records.RemainingIsExact: the source goes through a floating-point number of seconds; the model truncates exactly.
- Overflow of the score, which would take more flags than memory holds.
- StreamBuffer.Run: a commit or consume whose cast count would take the contents' end before their start, or the get
  pointer out of the array, gets the reply `Undefined` and is not followed further.  A sum of the get pointer and a
  count beyond the address space, to which the language gives no meaning, wraps around as the machine does it.
- Failure to allocate memory in the stream buffers, and putting back on `basic_streambuf`.
- Connecting, closing, moving and putting back on the socket stream buffer; waiting times, of which only the outcome of
  a wait is modelled.
- AlignedAllocation.Memory.Allocate: the eight sums size + align - 1 that fit 64 bits and no longer do with the hidden
  word added, since no memory holds such a block; what a failed allocation leaves with the underlying allocator.
- Windows accounts, registry, processes, scheduled tasks and packet filters, and the user interfaces.
