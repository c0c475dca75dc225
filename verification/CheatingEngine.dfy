/**
 The per-student monitor of the server: flags, score, heartbeat and message chain.

 `Monitor` is the value of a `CheatingState` object; each method of the class is specified by a
 function on that value.
 */
module CheatingEngine {
  import opened Basics
  import opened Chain

  type Id = string
  type Time = int   // nanoseconds

  const SECOND: Time := 1_000_000_000
  const HEARTBEAT_LIMIT: Time := 10 * SECOND

  const HEARTBEAT := "heartbeat"
  const STUDENT_FINISHED := "student_finished"
  const EXAM_HOME := "c:\\users\\exam_user"

  datatype Severity = Low | Medium | High
  datatype FlagKind =
    | Broken(fault: Fault)
    | StudentDisconnected
    | FileCopyOutsideEnv
    | FirewallTampered
    | FirewallError
    | SessionEvent(event: string)
    | ShutdownAttempt
    | UsbConnected
    | UsbDisconnected
    | VirtualMachine

  datatype Notice = Notice(kind: FlagKind, severity: Severity)
  datatype Flag = Flag(notice: Notice, at: Time)

  /** The parts of an event's detail that decide about flags. */
  datatype Detail = Detail(files: seq<string>, isVM: bool)

  datatype Monitor = Monitor(
    studentId: Id, runId: Id, studentName: string,
    flags: seq<Flag>, lastHeartbeat: Time, connected: bool, finished: bool,
    score: int, link: Link)

  // ---------------------------------------------------------------- flags and score

  function Weight(severity: Severity): nat {
    match severity
    case High => 3
    case Medium => 2
    case Low => 1
  }

  function Total(ns: seq<Notice>): nat {
    if ns == [] then 0 else Total(ns[..|ns| - 1]) + Weight(ns[|ns| - 1].severity)
  }

  function Stamp(ns: seq<Notice>, now: Time): (fs: seq<Flag>)
    ensures |fs| == |ns|
  {
    seq(|ns|, i requires 0 <= i < |ns| => Flag(ns[i], now))
  }

  function Notices(fs: seq<Flag>): (ns: seq<Notice>)
    ensures |ns| == |fs|
  {
    seq(|fs|, i requires 0 <= i < |fs| => fs[i].notice)
  }

  function AddNotices(m: Monitor, ns: seq<Notice>, now: Time): Monitor {
    m.(flags := m.flags + Stamp(ns, now), score := m.score + Total(ns))
  }

  lemma {:induction false} TotalConcat(ms: seq<Notice>, ns: seq<Notice>)
    ensures Total(ms + ns) == Total(ms) + Total(ns)
  {
    if ns == [] {
      assert ms + ns == ms;
    } else {
      assert (ms + ns)[..|ms + ns| - 1] == ms + ns[..|ns| - 1];
      TotalConcat(ms, ns[..|ns| - 1]);
    }
  }

  lemma OneNotice(n: Notice, now: Time)
    ensures Stamp([n], now) == [Flag(n, now)] && Total([n]) == Weight(n.severity)
  {
    assert [n][..0] == [] && Total([]) == 0;
    assert Stamp([n], now)[0] == Flag(n, now);
  }

  lemma StampConcat(ms: seq<Notice>, ns: seq<Notice>, now: Time)
    ensures Stamp(ms + ns, now) == Stamp(ms, now) + Stamp(ns, now)
  {
  }

  lemma FlagsConcat(fs: seq<Flag>, gs: seq<Flag>, hs: seq<Flag>)
    ensures (fs + gs) + hs == fs + (gs + hs)
  {
  }

  lemma AddNoticesConcat(m: Monitor, ms: seq<Notice>, ns: seq<Notice>, now: Time)
    ensures AddNotices(AddNotices(m, ms, now), ns, now) == AddNotices(m, ms + ns, now)
  {
    TotalConcat(ms, ns);
    StampConcat(ms, ns, now);
    FlagsConcat(m.flags, Stamp(ms, now), Stamp(ns, now));
  }

  /** The score is three per high, two per medium and one per low flag still on record. */
  predicate Scored(m: Monitor) {
    m.score == Total(Notices(m.flags))
  }

  lemma AddKeepsScored(m: Monitor, ns: seq<Notice>, now: Time)
    requires Scored(m)
    ensures Scored(AddNotices(m, ns, now))
  {
    TotalConcat(Notices(m.flags), ns);
    assert Notices(m.flags + Stamp(ns, now)) == Notices(m.flags) + ns;
  }

  // ---------------------------------------------------------------- message chain

  function ChainNotices(faults: seq<Fault>): (ns: seq<Notice>)
    ensures |ns| == |faults|
  {
    seq(|faults|, i requires 0 <= i < |faults| => Notice(Broken(faults[i]), High))
  }

  function Verified(m: Monitor, wire: Wire, raw: Raw, now: Time): Monitor {
    AddNotices(m, ChainNotices(Verify(m.link, wire.header(raw))), now).(link := Advance(wire, raw))
  }

  function ChainReset(m: Monitor): Monitor {
    m.(link := Link(0, ""))
  }

  /** The chain notices on record, oldest first, and all others. */
  function ChainOf(fs: seq<Flag>): seq<Notice> {
    if fs == [] then []
    else
      var n := |fs| - 1;
      ChainOf(fs[..n]) + if fs[n].notice.kind.Broken? then [fs[n].notice] else []
  }

  function OthersOf(fs: seq<Flag>): seq<Notice> {
    if fs == [] then []
    else
      var n := |fs| - 1;
      OthersOf(fs[..n]) + if fs[n].notice.kind.Broken? then [] else [fs[n].notice]
  }

  lemma {:induction false} ChainOfConcat(fs: seq<Flag>, gs: seq<Flag>)
    ensures ChainOf(fs + gs) == ChainOf(fs) + ChainOf(gs)
  {
    if gs == [] {
      assert fs + gs == fs;
    } else {
      assert (fs + gs)[..|fs + gs| - 1] == fs + gs[..|gs| - 1];
      ChainOfConcat(fs, gs[..|gs| - 1]);
    }
  }

  lemma {:induction false} ChainOfChainNotices(faults: seq<Fault>, now: Time)
    ensures ChainOf(Stamp(ChainNotices(faults), now)) == ChainNotices(faults)
  {
    if faults == [] {
    } else {
      var n := |faults| - 1;
      ChainOfChainNotices(faults[..n], now);
      assert Stamp(ChainNotices(faults), now)[..n] == Stamp(ChainNotices(faults[..n]), now);
      assert ChainNotices(faults) == ChainNotices(faults[..n]) + [Notice(Broken(faults[n]), High)];
    }
  }

  lemma ChainNoticesConcat(faults: seq<Fault>, more: seq<Fault>)
    ensures ChainNotices(faults + more) == ChainNotices(faults) + ChainNotices(more)
  {
  }

  lemma OneMoreNotice(ns: seq<Notice>, n: Notice)
    ensures Total(ns + [n]) == Total(ns) + Weight(n.severity)
  {
    assert (ns + [n])[..|ns|] == ns;
  }

  /** The score is the weight of the chain flags plus the weight of the others. */
  lemma {:induction false} WeightSplits(fs: seq<Flag>)
    ensures Total(Notices(fs)) == Total(ChainOf(fs)) + Total(OthersOf(fs))
  {
    if fs == [] {
    } else {
      var n := |fs| - 1;
      WeightSplits(fs[..n]);
      LastNotice(fs);
      LastSplits(fs);
    }
  }

  lemma LastNotice(fs: seq<Flag>)
    requires fs != []
    ensures Total(Notices(fs)) == Total(Notices(fs[..|fs| - 1])) + Weight(fs[|fs| - 1].notice.severity)
  {
    var n := |fs| - 1;
    assert Notices(fs) == Notices(fs[..n]) + [fs[n].notice];
    OneMoreNotice(Notices(fs[..n]), fs[n].notice);
  }

  /** The last flag adds its weight on the side it belongs to. */
  lemma LastSplits(fs: seq<Flag>)
    requires fs != []
    ensures
      var n := |fs| - 1;
      Total(ChainOf(fs)) + Total(OthersOf(fs)) ==
      Total(ChainOf(fs[..n])) + Total(OthersOf(fs[..n])) + Weight(fs[n].notice.severity)
  {
    var n := |fs| - 1;
    if fs[n].notice.kind.Broken? {
      assert OthersOf(fs) == OthersOf(fs[..n]);
      OneMoreNotice(ChainOf(fs[..n]), fs[n].notice);
    } else {
      assert ChainOf(fs) == ChainOf(fs[..n]);
      OneMoreNotice(OthersOf(fs[..n]), fs[n].notice);
    }
  }

  lemma {:induction false} TotalOfChainNotices(faults: seq<Fault>)
    ensures Total(ChainNotices(faults)) == 3 * |faults|
  {
    if faults == [] {
    } else {
      var n := |faults| - 1;
      TotalOfChainNotices(faults[..n]);
      assert ChainNotices(faults)[..n] == ChainNotices(faults[..n]);
    }
  }

  // ---------------------------------------------------------------- events

  predicate Contains(s: string, part: string) {
    exists i :: 0 <= i <= |s| && part <= s[i..]
  }

  predicate OutsideEnv(lower: string -> string, file: string) {
    !Contains(lower(file), EXAM_HOME)
  }

  function FileNotices(lower: string -> string, files: seq<string>): seq<Notice> {
    if files == [] then []
    else
      var n := |files| - 1;
      FileNotices(lower, files[..n]) +
      if OutsideEnv(lower, files[n]) then [Notice(FileCopyOutsideEnv, High)] else []
  }

  /** The flags one event raises. */
  function EventNotices(lower: string -> string, event: string, detail: Detail): seq<Notice> {
    if event == HEARTBEAT then []
    else if event == "clipboard_text" then []
    else if event == "clipboard_file" then FileNotices(lower, detail.files)
    else if event == "firewall_tampered" then [Notice(FirewallTampered, High)]
    else if event == "firewall_error" then [Notice(FirewallError, Medium)]
    else if event == "session_logoff" || event == "session_ending" || event == "session_lock" then
      [Notice(SessionEvent(event), High)]
    else if event == "session_shutdown_requested" then [Notice(ShutdownAttempt, High)]
    else if event == "usb_connected" then [Notice(UsbConnected, High)]
    else if event == "usb_disconnected" then [Notice(UsbDisconnected, Low)]
    else if event == "vm_detection" then (if detail.isVM then [Notice(VirtualMachine, High)] else [])
    else if event == "tcp_snapshot" then []
    else if "session_" <= event then [Notice(SessionEvent(event), Medium)]
    else []
  }

  function Updated(m: Monitor, lower: string -> string, event: string, detail: Detail, now: Time): Monitor {
    AddNotices(m, EventNotices(lower, event, detail), now)
      .(lastHeartbeat := if event == HEARTBEAT then now else m.lastHeartbeat)
  }

  /** No event raises a chain fault or a disconnect flag. */
  predicate Ordinary(kind: FlagKind) {
    !kind.Broken? && kind != StudentDisconnected
  }

  lemma {:induction false} FileNoticesOrdinary(lower: string -> string, files: seq<string>)
    ensures forall i :: 0 <= i < |FileNotices(lower, files)| ==> Ordinary(FileNotices(lower, files)[i].kind)
  {
    if files == [] {
    } else {
      FileNoticesOrdinary(lower, files[..|files| - 1]);
    }
  }

  lemma EventNoticesOrdinary(lower: string -> string, event: string, detail: Detail)
    ensures forall i :: 0 <= i < |EventNotices(lower, event, detail)| ==>
      Ordinary(EventNotices(lower, event, detail)[i].kind)
  {
    FileNoticesOrdinary(lower, detail.files);
  }

  // ---------------------------------------------------------------- what an event raises, flag by flag

  /** No part of the path, in lower case, is the home directory of the exam account. */
  predicate OutsideHome(path: string) {
    forall p :: 0 <= p <= |path| ==> !("c:\\users\\exam_user" <= path[p..])
  }

  function FilesOutside(lower: string -> string, files: seq<string>): set<int> {
    set i | 0 <= i < |files| && OutsideHome(lower(files[i]))
  }

  predicate Gains(m: Monitor, m': Monitor, kind: FlagKind, severity: Severity, points: nat, now: Time) {
    m'.flags == m.flags + [Flag(Notice(kind, severity), now)] && m'.score == m.score + points
  }

  predicate GainsNothing(m: Monitor, m': Monitor) {
    m'.flags == m.flags && m'.score == m.score
  }

  /** One high flag and three points for each copied file outside the home directory. */
  predicate GainsFiles(m: Monitor, m': Monitor, lower: string -> string, files: seq<string>, now: Time) {
    && |m'.flags| == |m.flags| + |FilesOutside(lower, files)| && m.flags <= m'.flags
    && (forall j :: |m.flags| <= j < |m'.flags| ==> m'.flags[j] == Flag(Notice(FileCopyOutsideEnv, High), now))
    && m'.score == m.score + 3 * |FilesOutside(lower, files)|
  }

  predicate SessionOver(event: string) {
    event == "session_logoff" || event == "session_ending" || event == "session_lock"
  }

  /** The flags and points of every event: word, severity and points as they are on the record. */
  predicate EventEffect(m: Monitor, m': Monitor, lower: string -> string, event: string, detail: Detail, now: Time) {
    && m' == m.(flags := m'.flags, score := m'.score,
                lastHeartbeat := if event == "heartbeat" then now else m.lastHeartbeat)
    && if event == "clipboard_file" then GainsFiles(m, m', lower, detail.files, now)
       else if event == "firewall_tampered" then Gains(m, m', FirewallTampered, High, 3, now)
       else if event == "firewall_error" then Gains(m, m', FirewallError, Medium, 2, now)
       else if SessionOver(event) then Gains(m, m', SessionEvent(event), High, 3, now)
       else if event == "session_shutdown_requested" then Gains(m, m', ShutdownAttempt, High, 3, now)
       else if event == "usb_connected" then Gains(m, m', UsbConnected, High, 3, now)
       else if event == "usb_disconnected" then Gains(m, m', UsbDisconnected, Low, 1, now)
       else if event == "vm_detection" && detail.isVM then Gains(m, m', VirtualMachine, High, 3, now)
       else if "session_" <= event then Gains(m, m', SessionEvent(event), Medium, 2, now)
       else GainsNothing(m, m')
  }

  lemma OutsideIsOutside(lower: string -> string, file: string)
    ensures OutsideEnv(lower, file) <==> OutsideHome(lower(file))
  {
  }

  lemma {:induction false} FileNoticesAreExact(lower: string -> string, files: seq<string>)
    ensures
      var ns := FileNotices(lower, files);
      && |ns| == |FilesOutside(lower, files)| && Total(ns) == 3 * |ns|
      && forall i :: 0 <= i < |ns| ==> ns[i] == Notice(FileCopyOutsideEnv, High)
  {
    if files == [] {
      assert FilesOutside(lower, files) == {};
    } else {
      var n := |files| - 1;
      FileNoticesAreExact(lower, files[..n]);
      OutsideIsOutside(lower, files[n]);
      OneMoreFile(lower, files);
      var before := FileNotices(lower, files[..n]);
      if OutsideHome(lower(files[n])) {
        assert FileNotices(lower, files) == before + [Notice(FileCopyOutsideEnv, High)];
        OneMoreNotice(before, Notice(FileCopyOutsideEnv, High));
      } else {
        assert FileNotices(lower, files) == before;
      }
    }
  }

  lemma OneMoreFile(lower: string -> string, files: seq<string>)
    requires files != []
    ensures
      var n := |files| - 1;
      |FilesOutside(lower, files)| == |FilesOutside(lower, files[..n])| + if OutsideHome(lower(files[n])) then 1 else 0
  {
    var n := |files| - 1;
    var before := FilesOutside(lower, files[..n]);
    assert FilesOutside(lower, files) == if OutsideHome(lower(files[n])) then before + {n} else before;
  }

  lemma NoNoticesNothing(m: Monitor, now: Time)
    ensures GainsNothing(m, AddNotices(m, [], now))
  {
    assert m.flags + Stamp([], now) == m.flags;
  }

  lemma OneNoticeGains(m: Monitor, n: Notice, now: Time)
    ensures Gains(m, AddNotices(m, [n], now), n.kind, n.severity,
                  match n.severity { case High => 3 case Medium => 2 case Low => 1 }, now)
  {
    OneNotice(n, now);
  }

  lemma FileNoticesGain(m: Monitor, lower: string -> string, files: seq<string>, now: Time)
    ensures GainsFiles(m, AddNotices(m, FileNotices(lower, files), now), lower, files, now)
  {
    FileNoticesAreExact(lower, files);
  }

  /** The words that begin otherwise than the session events. */
  lemma NoSessionWords()
    ensures !("session_" <= "heartbeat") && !("session_" <= "clipboard_text") && !("session_" <= "vm_detection")
    ensures !("session_" <= "tcp_snapshot")
  {
    assert "session_"[0] == 's' && "heartbeat"[0] == 'h' && "clipboard_text"[0] == 'c';
    assert "vm_detection"[0] == 'v' && "tcp_snapshot"[0] == 't';
  }

  /** The monitor's reaction to an event is the one listed. */
  lemma UpdatedEffect(m: Monitor, lower: string -> string, event: string, detail: Detail, now: Time)
    ensures EventEffect(m, Updated(m, lower, event, detail, now), lower, event, detail, now)
  {
    NoSessionWords();
    if event == "clipboard_file" {
      FileNoticesGain(m, lower, detail.files, now);
    } else {
      OtherEventEffect(m, lower, event, detail, now);
    }
  }

  lemma OtherEventEffect(m: Monitor, lower: string -> string, event: string, detail: Detail, now: Time)
    requires event != "clipboard_file"
    ensures EventEffect(m, Updated(m, lower, event, detail, now), lower, event, detail, now)
  {
    NoSessionWords();
    NoNoticesNothing(m, now);
    if EventNotices(lower, event, detail) != [] {
      OneNoticeGains(m, EventNotices(lower, event, detail)[0], now);
      assert EventNotices(lower, event, detail) == [EventNotices(lower, event, detail)[0]];
    }
  }

  // ---------------------------------------------------------------- heartbeat

  predicate Silent(m: Monitor, now: Time) {
    !m.finished && m.connected && now - m.lastHeartbeat > HEARTBEAT_LIMIT
  }

  function Ticked(m: Monitor, now: Time): Monitor {
    if Silent(m, now)
    then AddNotices(m, [Notice(StudentDisconnected, Medium)], now).(connected := false)
    else m
  }

  /** An unfinished, connected student silent for more than ten seconds is flagged, for two points, and disconnected. */
  predicate TickEffect(m: Monitor, m': Monitor, now: Time) {
    if !m.finished && m.connected && now - m.lastHeartbeat > 10_000_000_000 then
      && m' == m.(flags := m'.flags, score := m'.score, connected := false)
      && Gains(m, m', StudentDisconnected, Medium, 2, now)
    else m' == m
  }

  lemma TickedEffect(m: Monitor, now: Time)
    ensures TickEffect(m, Ticked(m, now), now)
  {
    OneNotice(Notice(StudentDisconnected, Medium), now);
  }

  /** The number of disconnect flags on record. */
  function Disconnects(fs: seq<Flag>): nat {
    if fs == [] then 0
    else
      var n := |fs| - 1;
      Disconnects(fs[..n]) + if fs[n].notice.kind == StudentDisconnected then 1 else 0
  }

  lemma {:induction false} DisconnectsConcat(fs: seq<Flag>, gs: seq<Flag>)
    ensures Disconnects(fs + gs) == Disconnects(fs) + Disconnects(gs)
  {
    if gs == [] {
      assert fs + gs == fs;
    } else {
      assert (fs + gs)[..|fs + gs| - 1] == fs + gs[..|gs| - 1];
      DisconnectsConcat(fs, gs[..|gs| - 1]);
    }
  }

  lemma {:induction false} OrdinaryCountsNothing(ns: seq<Notice>, now: Time)
    requires forall i :: 0 <= i < |ns| ==> Ordinary(ns[i].kind)
    ensures ChainOf(Stamp(ns, now)) == [] && Disconnects(Stamp(ns, now)) == 0
  {
    if ns == [] {
    } else {
      OrdinaryCountsNothing(ns[..|ns| - 1], now);
      assert Stamp(ns, now)[..|ns| - 1] == Stamp(ns[..|ns| - 1], now);
    }
  }

  lemma {:induction false} ChainNoticesDisconnectNothing(faults: seq<Fault>, now: Time)
    ensures Disconnects(Stamp(ChainNotices(faults), now)) == 0
  {
    if faults == [] {
    } else {
      var n := |faults| - 1;
      ChainNoticesDisconnectNothing(faults[..n], now);
      assert Stamp(ChainNotices(faults), now)[..n] == Stamp(ChainNotices(faults[..n]), now);
    }
  }

  // ---------------------------------------------------------------- the object

  function NewMonitor(studentId: Id, runId: Id, now: Time): Monitor {
    Monitor(studentId, runId, "", [], now, true, false, 0, Link(0, ""))
  }

  class CheatingState {
    const studentId: Id
    const runId: Id
    var studentName: string
    var flags: seq<Flag>
    var lastHeartbeat: Time
    var connected: bool
    var finished: bool
    var score: int
    var expectedSeq: Int64
    var lastMsgHash: Digest

    function View(): Monitor
      reads this
    {
      Monitor(studentId, runId, studentName, flags, lastHeartbeat, connected, finished, score,
              Link(expectedSeq, lastMsgHash))
    }

    constructor (studentId: Id, runId: Id, now: Time)
      ensures View() == NewMonitor(studentId, runId, now)
    {
      this.studentId, this.runId, this.studentName := studentId, runId, "";
      this.flags, this.lastHeartbeat, this.connected := [], now, true;
      this.finished, this.score, this.expectedSeq, this.lastMsgHash := false, 0, 0, "";
    }

    method AddFlag(kind: FlagKind, severity: Severity, now: Time)
      modifies this
      ensures View() == AddNotices(old(View()), [Notice(kind, severity)], now)
      ensures Gains(old(View()), View(), kind, severity,
                    match severity { case High => 3 case Medium => 2 case Low => 1 }, now)
    {
      flags := flags + [Flag(Notice(kind, severity), now)];
      match severity {
        case High => score := score + 3;
        case Medium => score := score + 2;
        case Low => score := score + 1;
      }
      OneNotice(Notice(kind, severity), now);
    }

    method VerifyChain(wire: Wire, raw: Raw, now: Time) returns (valid: bool)
      modifies this
      ensures View() == Verified(old(View()), wire, raw, now)
      ensures valid <==> |flags| == |old(flags)|
    {
      valid := true;
      ghost var raised: seq<Notice> := [];
      AddNoticesConcat(View(), [], [Notice(Broken(SeqMismatch), High)], now);
      AddNoticesConcat(View(), [], [Notice(Broken(HashMismatch), High)], now);
      AddNoticesConcat(View(), [Notice(Broken(SeqMismatch), High)], [Notice(Broken(HashMismatch), High)], now);
      assert View() == AddNotices(View(), [], now);
      var header := wire.header(raw);
      if header.number != expectedSeq {
        AddFlag(Broken(SeqMismatch), High, now);
        raised := raised + [Notice(Broken(SeqMismatch), High)];
        valid := false;
      }
      if expectedSeq > 0 && header.prevHash != lastMsgHash {
        AddFlag(Broken(HashMismatch), High, now);
        raised := raised + [Notice(Broken(HashMismatch), High)];
        valid := false;
      }
      assert View() == AddNotices(old(View()), raised, now);
      assert raised == ChainNotices(Verify(old(View()).link, header));
      expectedSeq := Inc64(header.number);
      lastMsgHash := wire.hash(raw);
    }

    method ResetChain()
      modifies this
      ensures View() == ChainReset(old(View()))
    {
      expectedSeq := 0;
      lastMsgHash := "";
    }

    method Update(lower: string -> string, event: string, detail: Detail, now: Time)
      modifies this
      ensures View() == Updated(old(View()), lower, event, detail, now)
      ensures EventEffect(old(View()), View(), lower, event, detail, now)
    {
      UpdatedEffect(View(), lower, event, detail, now);
      React(lower, event, detail, now);
    }

    /** The switch over the event's word. */
    method React(lower: string -> string, event: string, detail: Detail, now: Time)
      modifies this
      ensures View() == Updated(old(View()), lower, event, detail, now)
    {
      assert View() == AddNotices(View(), [], now);
      if event == HEARTBEAT {
        lastHeartbeat := now;
      } else if event == "clipboard_text" {
      } else if event == "clipboard_file" {
        for i := 0 to |detail.files|
          invariant View() == AddNotices(old(View()), FileNotices(lower, detail.files[..i]), now)
        {
          assert detail.files[..i + 1][..i] == detail.files[..i];
          ghost var before, after := FileNotices(lower, detail.files[..i]), FileNotices(lower, detail.files[..i + 1]);
          assert after == before + if OutsideEnv(lower, detail.files[i]) then [Notice(FileCopyOutsideEnv, High)] else [];
          AddNoticesConcat(old(View()), FileNotices(lower, detail.files[..i]), [Notice(FileCopyOutsideEnv, High)], now);
          if OutsideEnv(lower, detail.files[i]) {
            AddFlag(FileCopyOutsideEnv, High, now);
            assert View() == AddNotices(old(View()), after, now);
          } else {
            assert after == before;
          }
        }
        assert detail.files[..|detail.files|] == detail.files;
      } else if event == "firewall_tampered" {
        AddFlag(FirewallTampered, High, now);
      } else if event == "firewall_error" {
        AddFlag(FirewallError, Medium, now);
      } else if event == "session_logoff" || event == "session_ending" || event == "session_lock" {
        AddFlag(SessionEvent(event), High, now);
      } else if event == "session_shutdown_requested" {
        AddFlag(ShutdownAttempt, High, now);
      } else if event == "usb_connected" {
        AddFlag(UsbConnected, High, now);
      } else if event == "usb_disconnected" {
        AddFlag(UsbDisconnected, Low, now);
      } else if event == "vm_detection" {
        if detail.isVM {
          AddFlag(VirtualMachine, High, now);
        }
      } else if event == "tcp_snapshot" {
      } else if "session_" <= event {
        AddFlag(SessionEvent(event), Medium, now);
      }
    }

    /** One pass of the heartbeat checker over this student; `flagged` says that a flag was added. */
    method Tick(now: Time) returns (flagged: bool)
      modifies this
      ensures View() == Ticked(old(View()), now)
      ensures flagged <==> Silent(old(View()), now)
      ensures TickEffect(old(View()), View(), now)
    {
      TickedEffect(View(), now);
      flagged := false;
      if finished {
        return;
      }
      if connected && now - lastHeartbeat > HEARTBEAT_LIMIT {
        AddFlag(StudentDisconnected, Medium, now);
        connected := false;
        flagged := true;
      }
    }
  }
}
