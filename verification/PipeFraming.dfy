/** Lines over a pipe: the writer's loop over partial writes and the reader's loop over single bytes. */
module PipeFraming {
  import opened Basics

  const LF: Byte := 10
  const CR: Byte := 13
  const BOM: seq<Byte> := [0xEF, 0xBB, 0xBF]
  const DWORD_MAX: int := 0xFFFF_FFFF

  type Line = seq<Byte>

  /** A line the writer accepts. */
  predicate Plain(line: Line) {
    LF !in line && CR !in line
  }

  function WithoutBom(line: Line): Line {
    if BOM <= line then line[3..] else line
  }

  /** The bytes of a line up to its end, without carriage returns, and the bytes behind it; nothing without an end. */
  function Parsed(bytes: seq<Byte>): Option<(Line, seq<Byte>)> {
    if bytes == [] then None
    else if bytes[0] == LF then Some(([], bytes[1..]))
    else match Parsed(bytes[1..])
      case None => None
      case Some((line, rest)) => Some((if bytes[0] == CR then line else [bytes[0]] + line, rest))
  }

  function Framed(lines: seq<Line>): seq<Byte> {
    if lines == [] then [] else lines[0] + [LF] + Framed(lines[1..])
  }

  /** All lines a reader gets until the end of the stream. */
  function ReadAll(bytes: seq<Byte>): seq<Line>
    decreases |bytes|
  {
    match Parsed(bytes)
    case None => []
    case Some((line, rest)) => ParsedShrinks(bytes); [WithoutBom(line)] + ReadAll(rest)
  }

  lemma {:induction false} ParsedShrinks(bytes: seq<Byte>)
    ensures Parsed(bytes).Some? ==> |Parsed(bytes).value.1| < |bytes|
  {
    if bytes == [] {
    } else { ParsedShrinks(bytes[1..]); }
  }

  /** The bytes other than carriage returns, in order. */
  function WithoutCr(bytes: seq<Byte>): Line {
    if bytes == [] then []
    else if bytes[0] == 13 then WithoutCr(bytes[1..])
    else [bytes[0]] + WithoutCr(bytes[1..])
  }

  /** No carriage return is left, every other byte is, and a line without one is left as it is. */
  lemma {:induction false} WithoutCrIsExact(bytes: seq<Byte>)
    ensures 13 !in WithoutCr(bytes) && forall b :: b != 13 ==> (b in WithoutCr(bytes) <==> b in bytes)
    ensures 13 !in bytes ==> WithoutCr(bytes) == bytes
  {
    if bytes == [] {
    } else {
      assert bytes == [bytes[0]] + bytes[1..];
      WithoutCrIsExact(bytes[1..]);
    }
  }

  lemma {:induction false} WithoutCrConcat(a: seq<Byte>, b: seq<Byte>)
    ensures WithoutCr(a + b) == WithoutCr(a) + WithoutCr(b)
  {
    if a == [] {
      assert a + b == b;
    } else {
      WithoutCrConcat(a[1..], b);
      FirstOfConcat(a, b);
      if a[0] != 13 {
        Reassociate([a[0]], WithoutCr(a[1..]), WithoutCr(b));
      }
    }
  }

  lemma FirstOfConcat(a: seq<Byte>, b: seq<Byte>)
    requires a != []
    ensures (a + b)[0] == a[0] && (a + b)[1..] == a[1..] + b
  {
  }

  lemma Reassociate(x: seq<Byte>, y: seq<Byte>, z: seq<Byte>)
    ensures (x + y) + z == x + (y + z)
  {
  }

  /** A read ends at the first line feed and drops the carriage returns before it. */
  lemma {:induction false} ParsedFirstLine(line: seq<Byte>, rest: seq<Byte>)
    requires 10 !in line
    ensures Parsed(line + [10] + rest) == Some((WithoutCr(line), rest))
  {
    var all := line + [10] + rest;
    if line == [] {
      assert all[1..] == rest;
    } else {
      assert all[1..] == line[1..] + [10] + rest;
      assert line == [line[0]] + line[1..];
      assert line[0] in line && all[0] == line[0];
      assert forall b :: b in line[1..] ==> b in line;
      ParsedFirstLine(line[1..], rest);
    }
  }

  /** Without a line feed a read fails. */
  lemma {:induction false} NoLineWithoutEnd(bytes: seq<Byte>)
    requires 10 !in bytes
    ensures Parsed(bytes) == None
  {
    if bytes == [] {
    } else {
      assert bytes == [bytes[0]] + bytes[1..];
      NoLineWithoutEnd(bytes[1..]);
    }
  }

  lemma ParsedFramed(line: Line, rest: seq<Byte>)
    requires Plain(line)
    ensures Parsed(line + [LF] + rest) == Some((line, rest))
  {
    ParsedFirstLine(line, rest);
    WithoutCrIsExact(line);
  }

  /** Of a line with a byte order mark, all that follows the mark is read; of any other, all of it. */
  lemma MarkIsDropped(line: Line)
    ensures WithoutBom([0xEF, 0xBB, 0xBF] + line) == line
    ensures !([0xEF, 0xBB, 0xBF] <= line) ==> WithoutBom(line) == line
  {
  }

  function Cleaned(lines: seq<Line>): seq<Line> {
    if lines == [] then [] else [WithoutBom(lines[0])] + Cleaned(lines[1..])
  }

  /** Reading what was written gives the lines without their byte order marks, and then the end of the stream. */
  lemma {:induction false} ReadWritten(lines: seq<Line>)
    requires forall i :: 0 <= i < |lines| ==> Plain(lines[i])
    ensures ReadAll(Framed(lines)) == Cleaned(lines)
  {
    if lines == [] {
    } else {
      ParsedFramed(lines[0], Framed(lines[1..]));
      ReadWritten(lines[1..]);
    }
  }

  /** The round trip returns exactly the lines when, and only when, none of them starts with a byte order mark. */
  lemma {:induction false} RoundTripIff(lines: seq<Line>)
    requires forall i :: 0 <= i < |lines| ==> Plain(lines[i])
    ensures ReadAll(Framed(lines)) == lines <==> forall i :: 0 <= i < |lines| ==> !(BOM <= lines[i])
  {
    ReadWritten(lines);
    CleanedIff(lines);
  }

  lemma {:induction false} CleanedIff(lines: seq<Line>)
    ensures Cleaned(lines) == lines <==> forall i :: 0 <= i < |lines| ==> !(BOM <= lines[i])
  {
    if lines == [] {
    } else {
      CleanedIff(lines[1..]);
      assert Cleaned(lines)[0] == WithoutBom(lines[0]) && Cleaned(lines)[1..] == Cleaned(lines[1..]);
      assert lines == [lines[0]] + lines[1..];
      assert (forall i :: 0 <= i < |lines| ==> !(BOM <= lines[i])) <==>
             !(BOM <= lines[0]) && forall i :: 0 <= i < |lines[1..]| ==> !(BOM <= lines[1..][i]);
    }
  }

  /** What one write does: `None` for a failed call, else how many bytes it takes of those offered. */
  type Schedule = nat -> Option<nat>

  /** The schedule never fails and never takes nothing. */
  ghost predicate Willing(schedule: Schedule) {
    forall i: nat :: schedule(i).Some? && schedule(i).value > 0
  }

  /** A length cut to the 32 bits of a count. */
  function Cut(n: nat): (c: nat)
    ensures c <= n && c <= DWORD_MAX && (c == n <==> n <= DWORD_MAX)
  {
    n % 0x1_0000_0000
  }

  /** What is offered after `total` bytes never passes the cut length. */
  lemma CutOfRest(n: nat, total: nat)
    requires total <= Cut(n)
    ensures Cut(n - total) == Cut(n) - total
  {
  }

  class Pipe {
    var bytes: seq<Byte>   // written and not yet read

    constructor ()
      ensures bytes == []
    {
      bytes := [];
    }

    /**
     Sends one line; a line with a line break is refused before anything is sent.  The count offered to each write is
     cut to 32 bits, so a line too long for the counter is sent up to a point where the count is 0, and fails there.
     */
    method WriteLine(line: Line, schedule: Schedule) returns (ok: bool)
      modifies this
      ensures ok ==> Plain(line) && bytes == old(bytes) + line + [LF]
      ensures !Plain(line) ==> !ok && bytes == old(bytes)
      ensures ok ==> |line| < DWORD_MAX
      ensures Plain(line) && Willing(schedule) && |line| < DWORD_MAX ==> ok
      ensures Plain(line) && Willing(schedule) && !ok ==> bytes == old(bytes) + (line + [LF])[..Cut(|line| + 1)]
      ensures exists k :: 0 <= k <= Cut(|line| + 1) && bytes == old(bytes) + (line + [LF])[..k]
    {
      if LF in line || CR in line {
        assert bytes == old(bytes) + (line + [LF])[..0];
        return false;
      }
      var payload := line + [LF];
      var total, call := 0, 0;
      assert payload[..0] == [];
      while total < |payload|
        invariant 0 <= total <= Cut(|payload|) && bytes == old(bytes) + payload[..total]
        decreases Cut(|payload|) - total
      {
        CutOfRest(|payload|, total);
        var result := schedule(call);
        call := call + 1;
        var written := if result.None? then 0 else Min(result.value, Cut(|payload| - total));
        if written == 0 {
          return false;
        }
        bytes := bytes + payload[total..total + written];
        assert payload[..total] + payload[total..total + written] == payload[..total + written];
        total := total + written;
      }
      assert payload[..total] == payload;
      return true;
    }

    /** Takes one line off the pipe, byte by byte; fails at the end of the stream. */
    method ReadLine() returns (ok: bool, line: Line)
      modifies this
      ensures ok <==> Parsed(old(bytes)).Some?
      ensures ok ==> bytes == Parsed(old(bytes)).value.1 && line == WithoutBom(Parsed(old(bytes)).value.0)
      ensures !ok ==> bytes == []
    {
      line := [];
      assert Parsed(bytes).Some? ==> [] + Parsed(bytes).value.0 == Parsed(bytes).value.0;
      while true
        invariant Parsed(old(bytes)).Some? <==> Parsed(bytes).Some?
        invariant Parsed(bytes).Some? ==> Parsed(old(bytes)).value == (line + Parsed(bytes).value.0, Parsed(bytes).value.1)
        decreases |bytes|
      {
        if bytes == [] {
          return false, line;
        }
        var ch := bytes[0];
        bytes := bytes[1..];
        if ch == CR {
          continue;
        }
        if ch == LF {
          assert line + [] == line;
          break;
        }
        assert Parsed(bytes).Some? ==> line + ([ch] + Parsed(bytes).value.0) == line + [ch] + Parsed(bytes).value.0;
        line := line + [ch];
      }
      assert Parsed(old(bytes)).value == (line, bytes);
      assert |line| >= 3 ==> line[..3] == [line[0], line[1], line[2]];
      if |line| >= 3 && line[0] == 0xEF && line[1] == 0xBB && line[2] == 0xBF {
        line := line[3..];
      }
      ok := true;
    }
  }

  method WriteLines(pipe: Pipe, lines: seq<Line>, schedules: seq<Schedule>)
    requires |schedules| == |lines| && pipe.bytes == []
    requires forall i :: 0 <= i < |lines| ==> Plain(lines[i]) && |lines[i]| < DWORD_MAX && Willing(schedules[i])
    modifies pipe
    ensures pipe.bytes == Framed(lines)
  {
    assert lines[0..] == lines;
    for i := 0 to |lines|
      invariant pipe.bytes + Framed(lines[i..]) == Framed(lines)
    {
      assert lines[i..][1..] == lines[i + 1..];
      ghost var before := pipe.bytes;
      var ok := pipe.WriteLine(lines[i], schedules[i]);
      assert before + lines[i] + [LF] + Framed(lines[i + 1..]) == before + (lines[i] + [LF] + Framed(lines[i + 1..]));
    }
  }

  /** Reads lines until a read fails. */
  method ReadLines(pipe: Pipe) returns (got: seq<Line>)
    modifies pipe
    ensures got == ReadAll(old(pipe.bytes)) && pipe.bytes == []
  {
    got := [];
    while true
      invariant got + ReadAll(pipe.bytes) == ReadAll(old(pipe.bytes))
      decreases |pipe.bytes|
    {
      ghost var before := pipe.bytes;
      ParsedShrinks(before);
      var ok, line := pipe.ReadLine();
      if !ok {
        break;
      }
      assert got + ([line] + ReadAll(pipe.bytes)) == got + [line] + ReadAll(pipe.bytes);
      got := got + [line];
    }
  }

  /** Writes lines under any schedules of partial writes and reads until the end of the stream. */
  method Exchange(lines: seq<Line>, schedules: seq<Schedule>) returns (got: seq<Line>)
    requires |schedules| == |lines|
    requires forall i :: 0 <= i < |lines| ==> Plain(lines[i]) && |lines[i]| < DWORD_MAX && Willing(schedules[i])
    ensures got == lines <==> forall i :: 0 <= i < |lines| ==> !(BOM <= lines[i])
  {
    var pipe := new Pipe();
    WriteLines(pipe, lines, schedules);
    got := ReadLines(pipe);
    RoundTripIff(lines);
  }
}
