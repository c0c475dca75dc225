/**
 The socket stream buffer: bytes are collected in a put area and sent in pieces of the network's choosing, and
 received in pieces of the network's choosing into a get area.

 The network is a plan: the list of what the successive send or receive calls do.  A plan that runs out stands for a
 time limit.
 */
module SocketStream {
  import opened Basics

  const BUFFER_SIZE := 512
  const PUTBACK_MAX := 8

  // ---------------------------------------------------------------- output

  /** One attempt to send: bytes accepted, would block and ready or not after waiting, another error, or too late. */
  datatype SendResult = Accepted(n: nat) | BlockedThenReady | BlockedForGood | SendFailed | SendTimedOut

  /** The bytes on the wire, the bytes in the put area, and whether there is a put area. */
  datatype Output = Output(wire: seq<Byte>, pending: seq<Byte>, buffered: bool)

  /** How many bytes of `out` are sent under the plan, and whether all are. */
  function Flushed(out: seq<Byte>, plan: seq<SendResult>): (r: (nat, bool))
    ensures r.0 <= |out| && (r.1 ==> r.0 == |out|)
    decreases plan
  {
    if out == [] then (0, true)
    else if plan == [] then (0, false)
    else match plan[0]
      case Accepted(n) =>
        if n == 0 then (0, false)
        else
          var k := Min(n, |out|);
          var (rest, all) := Flushed(out[k..], plan[1..]);
          (k + rest, all)
      case BlockedThenReady => Flushed(out, plan[1..])
      case _ => (0, false)
  }

  /** The effect of `overflow`; `None` is the end-of-file argument, and `false` an end-of-file result. */
  function Overflowed(o: Output, c: Option<Byte>, plan: seq<SendResult>): (Output, bool) {
    if !o.buffered then
      match c
      case None => (o, true)
      case Some(b) =>
        var (k, all) := Flushed([b], plan);
        (o.(wire := o.wire + [b][..k]), all)
    else
      var (k, all) := Flushed(o.pending, plan);
      if all
      then (o.(wire := o.wire + o.pending, pending := if c.Some? then [c.value] else []), true)
      else (o.(wire := o.wire + o.pending[..k]), false)
  }

  /** `Setbuf` offers an area, or none, and its length; only no area of length 0 is taken, as a request for no buffer. */
  datatype OutCall = Sputc(c: Byte) | Overflow(arg: Option<Byte>) | Sync | Setbuf(area: bool, n: int)

  function Called(o: Output, call: OutCall, plan: seq<SendResult>): (Output, bool) {
    match call
    case Sputc(c) =>
      if o.buffered && |o.pending| < BUFFER_SIZE
      then (o.(pending := o.pending + [c]), true)
      else Overflowed(o, Some(c), plan)
    case Overflow(c) => Overflowed(o, c, plan)
    case Sync => Overflowed(o, None, plan)
    case Setbuf(area, n) => if o.pending == [] && !area && n == 0 then (o.(buffered := false), true) else (o, false)
  }

  /** The bytes a call hands over when it succeeds. */
  function Handed(call: OutCall): seq<Byte> {
    match call
    case Sputc(c) => [c]
    case Overflow(Some(c)) => [c]
    case _ => []
  }

  datatype Attempt = Attempt(call: OutCall, plan: seq<SendResult>)

  function RunOut(o: Output, calls: seq<Attempt>): Output {
    if calls == [] then o
    else
      var n := |calls| - 1;
      Called(RunOut(o, calls[..n]), calls[n].call, calls[n].plan).0
  }

  /** All bytes handed over by calls that succeeded. */
  function Written(o: Output, calls: seq<Attempt>): seq<Byte> {
    if calls == [] then []
    else
      var n := |calls| - 1;
      Written(o, calls[..n]) +
      if Called(RunOut(o, calls[..n]), calls[n].call, calls[n].plan).1 then Handed(calls[n].call) else []
  }

  /** The put area is within its array, and empty when there is none. */
  predicate WellFormed(o: Output) {
    |o.pending| <= BUFFER_SIZE && (!o.buffered ==> o.pending == [])
  }

  /** How many bytes a failed call had already put on the wire. */
  function Leaked(o: Output, attempt: Attempt): nat {
    var (o', ok) := Called(o, attempt.call, attempt.plan);
    if ok || |o'.wire| < |o.wire| then 0 else |o'.wire| - |o.wire|
  }

  function TotalLeaked(o: Output, calls: seq<Attempt>): nat {
    if calls == [] then 0
    else
      var n := |calls| - 1;
      TotalLeaked(o, calls[..n]) + Leaked(RunOut(o, calls[..n]), calls[n])
  }

  /** One call: what is on the wire or pending grows by what it hands over, apart from what a failure leaked. */
  lemma CallDelivers(o: Output, attempt: Attempt)
    requires WellFormed(o)
    ensures
      var (o', ok) := Called(o, attempt.call, attempt.plan);
      && WellFormed(o')
      && (ok ==> o'.wire + o'.pending == o.wire + o.pending + Handed(attempt.call))
      && (!ok ==> Leaked(o, attempt) <= |o.pending| && o' == o.(wire := o.wire + o.pending[..Leaked(o, attempt)]))
  {
    var (o', ok) := Called(o, attempt.call, attempt.plan);
    match attempt.call
    case Sputc(c) =>
      if !(o.buffered && |o.pending| < BUFFER_SIZE) { OverflowDelivers(o, Some(c), attempt.plan); }
    case Overflow(c) => OverflowDelivers(o, c, attempt.plan);
    case Sync => OverflowDelivers(o, None, attempt.plan);
    case Setbuf(_, _) => assert o.wire + o.pending[..0] == o.wire;
    assert o.wire + o.pending == o.wire + o.pending + [];
  }

  lemma OverflowDelivers(o: Output, c: Option<Byte>, plan: seq<SendResult>)
    requires WellFormed(o)
    ensures
      var (o', ok) := Overflowed(o, c, plan);
      && WellFormed(o')
      && (ok ==> o'.wire + o'.pending == o.wire + o.pending + if c.Some? then [c.value] else [])
      && (!ok ==> |o.wire| <= |o'.wire| <= |o.wire| + |o.pending|
                  && o' == o.(wire := o.wire + o.pending[..|o'.wire| - |o.wire|]))
  {
    if !o.buffered && c.Some? {
      var (k, all) := Flushed([c.value], plan);
      OneByteIsAllOrNothing(c.value, plan);
      assert [c.value][..1] == [c.value];
      assert o.wire + [] == o.wire;
    }
  }

  lemma OneByteIsAllOrNothing(b: Byte, plan: seq<SendResult>)
    ensures Flushed([b], plan) == (1, true) || Flushed([b], plan) == (0, false)
    decreases plan
  {
    if plan != [] {
      if plan[0].BlockedThenReady? { OneByteIsAllOrNothing(b, plan[1..]); }
      assert [b][1..] == [];
    }
  }

  /** Over a run: the bytes on the wire and pending are as many as were handed over, plus what failures leaked. */
  lemma {:induction false} RunLength(o: Output, calls: seq<Attempt>)
    requires WellFormed(o)
    ensures
      var o' := RunOut(o, calls);
      && WellFormed(o')
      && |o'.wire + o'.pending| == |o.wire + o.pending + Written(o, calls)| + TotalLeaked(o, calls)
  {
    if calls == [] {
    } else {
      var n := |calls| - 1;
      RunLength(o, calls[..n]);
      CallDelivers(RunOut(o, calls[..n]), calls[n]);
    }
  }

  /** How many bytes the network takes before the first outcome that ends the loop. */
  function Takes(plan: seq<SendResult>): nat {
    if plan == [] then 0
    else match plan[0]
      case Accepted(n) => if n == 0 then 0 else n + Takes(plan[1..])
      case BlockedThenReady => Takes(plan[1..])
      case _ => 0
  }

  lemma {:induction false} FlushedIsTaken(out: seq<Byte>, plan: seq<SendResult>)
    ensures Flushed(out, plan) == (Min(Takes(plan), |out|), Takes(plan) >= |out|)
    decreases plan
  {
    if out == [] || plan == [] {
    } else {
      if plan[0].Accepted? {
        FlushedIsTaken(out[Min(plan[0].n, |out|)..], plan[1..]);
      } else if plan[0].BlockedThenReady? {
        FlushedIsTaken(out, plan[1..]);
      }
    }
  }

  /** Does the call send the put area? */
  predicate Flushes(o: Output, call: OutCall) {
    o.buffered && (call.Overflow? || call.Sync? || (call.Sputc? && |o.pending| >= BUFFER_SIZE))
  }

  /** The call sends the put area, and the network takes some of it and not all. */
  predicate Breaks(o: Output, attempt: Attempt) {
    Flushes(o, attempt.call) && 0 < Takes(attempt.plan) < |o.pending|
  }

  /** A call that fails has sent something exactly when the network takes a part of the put area it sends. */
  lemma LeakedIffBreaks(o: Output, attempt: Attempt)
    requires WellFormed(o)
    ensures Leaked(o, attempt) == if Breaks(o, attempt) then Takes(attempt.plan) else 0
  {
    if Flushes(o, attempt.call) {
      FlushedIsTaken(o.pending, attempt.plan);
    } else if attempt.call.Sputc? {
      OneByteIsAllOrNothing(attempt.call.c, attempt.plan);
    } else if attempt.call.Overflow? && attempt.call.arg.Some? {
      OneByteIsAllOrNothing(attempt.call.arg.value, attempt.plan);
    }
  }

  /** The result and the effect of every call, from what it is given and what the network takes. */
  predicate CallEffect(o: Output, attempt: Attempt, o': Output, ok: bool) {
    var taken := Takes(attempt.plan);
    match attempt.call
    case Setbuf(area, n) =>
      && (ok <==> o.pending == [] && !area && n == 0)
      && o' == if ok then o.(buffered := false) else o
    case Sputc(c) =>
      if o.buffered && |o.pending| < 512 then ok && o' == o.(pending := o.pending + [c])
      else FlushEffect(o, Some(c), taken, o', ok)
    case Overflow(c) => FlushEffect(o, c, taken, o', ok)
    case Sync => FlushEffect(o, None, taken, o', ok)
  }

  /** All of the put area is sent and the byte takes its place, or a part is sent; without an area the byte is sent. */
  predicate FlushEffect(o: Output, c: Option<Byte>, taken: nat, o': Output, ok: bool) {
    if o.buffered then
      && (ok <==> taken >= |o.pending|)
      && o' == if ok then Output(o.wire + o.pending, if c.Some? then [c.value] else [], true)
               else Output(o.wire + o.pending[..Min(taken, |o.pending|)], o.pending, true)
    else
      && (ok <==> c.None? || taken >= 1)
      && o' == if ok && c.Some? then o.(wire := o.wire + [c.value]) else o
  }

  lemma OverflowedEffect(o: Output, c: Option<Byte>, plan: seq<SendResult>)
    ensures FlushEffect(o, c, Takes(plan), Overflowed(o, c, plan).0, Overflowed(o, c, plan).1)
  {
    if o.buffered {
      FlushedIsTaken(o.pending, plan);
    } else if c.Some? {
      FlushedIsTaken([c.value], plan);
      assert [c.value][..1] == [c.value] && o.wire + [c.value][..0] == o.wire;
    }
  }

  lemma CallIsExact(o: Output, attempt: Attempt)
    ensures CallEffect(o, attempt, Called(o, attempt.call, attempt.plan).0, Called(o, attempt.call, attempt.plan).1)
  {
    match attempt.call {
      case Sputc(c) => OverflowedEffect(o, Some(c), attempt.plan);
      case Overflow(c) => OverflowedEffect(o, c, attempt.plan);
      case Sync => OverflowedEffect(o, None, attempt.plan);
      case Setbuf(_, _) =>
    }
  }

  predicate NeverBreaks(o: Output, calls: seq<Attempt>) {
    calls != [] ==>
      var n := |calls| - 1;
      NeverBreaks(o, calls[..n]) && !Breaks(RunOut(o, calls[..n]), calls[n])
  }

  lemma {:induction false} LeakedNothingIff(o: Output, calls: seq<Attempt>)
    requires WellFormed(o)
    ensures TotalLeaked(o, calls) == 0 <==> NeverBreaks(o, calls)
  {
    if calls == [] {
    } else {
      var n := |calls| - 1;
      LeakedNothingIff(o, calls[..n]);
      RunLength(o, calls[..n]);
      LeakedIffBreaks(RunOut(o, calls[..n]), calls[n]);
    }
  }

  /**
   Exactly once, in order: over any run of calls and any network, the wire followed by the put area is everything
   handed over by the calls that succeeded, exactly when the network never takes a put area in part.
   */
  lemma ExactlyOnceIff(o: Output, calls: seq<Attempt>)
    requires WellFormed(o)
    ensures
      var o' := RunOut(o, calls);
      o'.wire + o'.pending == o.wire + o.pending + Written(o, calls) <==> NeverBreaks(o, calls)
  {
    RunLength(o, calls);
    LeakedNothingIff(o, calls);
    if TotalLeaked(o, calls) == 0 {
      CleanRunDelivers(o, calls);
    }
  }

  lemma {:induction false} CleanRunDelivers(o: Output, calls: seq<Attempt>)
    requires WellFormed(o) && TotalLeaked(o, calls) == 0
    ensures RunOut(o, calls).wire + RunOut(o, calls).pending == o.wire + o.pending + Written(o, calls)
  {
    if calls == [] {
    } else {
      var n := |calls| - 1;
      var mid := RunOut(o, calls[..n]);
      RunLength(o, calls[..n]);
      CleanRunDelivers(o, calls[..n]);
      CleanCallDelivers(mid, calls[n]);
      Reassociate(o.wire + o.pending, Written(o, calls[..n]),
                  if Called(mid, calls[n].call, calls[n].plan).1 then Handed(calls[n].call) else []);
    }
  }

  lemma Reassociate(a: seq<Byte>, b: seq<Byte>, c: seq<Byte>)
    ensures (a + b) + c == a + (b + c)
  {
  }

  /** A call that leaked nothing: the wire followed by the put area grows by what it handed over. */
  lemma CleanCallDelivers(o: Output, attempt: Attempt)
    requires WellFormed(o) && Leaked(o, attempt) == 0
    ensures
      var (o', ok) := Called(o, attempt.call, attempt.plan);
      o'.wire + o'.pending == (o.wire + o.pending) + if ok then Handed(attempt.call) else []
  {
    CallDelivers(o, attempt);
    assert o.wire + o.pending[..0] == o.wire;
    assert (o.wire + o.pending) + [] == o.wire + o.pending;
  }

  /** No call of the run reports the end of file. */
  predicate AllSucceed(o: Output, calls: seq<Attempt>) {
    calls != [] ==>
      var n := |calls| - 1;
      AllSucceed(o, calls[..n]) && Called(RunOut(o, calls[..n]), calls[n].call, calls[n].plan).1
  }

  /** While no call fails, the wire followed by the put area is everything handed over, once and in order. */
  lemma {:induction false} ExactlyOnce(o: Output, calls: seq<Attempt>)
    requires WellFormed(o) && AllSucceed(o, calls)
    ensures RunOut(o, calls).wire + RunOut(o, calls).pending == o.wire + o.pending + Written(o, calls)
    ensures TotalLeaked(o, calls) == 0
  {
    if calls == [] {
    } else {
      ExactlyOnce(o, calls[..|calls| - 1]);
    }
    CleanRunDelivers(o, calls);
  }

  lemma CalledWireIsPrefix(o: Output, attempt: Attempt)
    requires WellFormed(o)
    ensures
      var (o', ok) := Called(o, attempt.call, attempt.plan);
      o'.wire <= (o.wire + o.pending) + if ok then Handed(attempt.call) else []
  {
    CallDelivers(o, attempt);
    var (o', ok) := Called(o, attempt.call, attempt.plan);
    var all := (o.wire + o.pending) + if ok then Handed(attempt.call) else [];
    assert all[..|o'.wire|] == o'.wire by {
      if ok {
        assert o'.wire + o'.pending == all;
      } else {
        assert o'.wire == o.wire + o.pending[..Leaked(o, attempt)];
      }
    }
  }

  /** Up to and including the first call that fails, the wire is a prefix of what was handed over. */
  lemma WireIsPrefixToFirstFailure(o: Output, calls: seq<Attempt>)
    requires WellFormed(o) && (calls != [] ==> AllSucceed(o, calls[..|calls| - 1]))
    ensures RunOut(o, calls).wire <= o.wire + o.pending + Written(o, calls)
  {
    if calls != [] {
      var n := |calls| - 1;
      var mid := RunOut(o, calls[..n]);
      ExactlyOnce(o, calls[..n]);
      RunLength(o, calls[..n]);
      CalledWireIsPrefix(mid, calls[n]);
      Reassociate(o.wire + o.pending, Written(o, calls[..n]),
                  if Called(mid, calls[n].call, calls[n].plan).1 then Handed(calls[n].call) else []);
    }
  }

  /** A flush that fails half way leaves the put area as it was, so a later flush sends its first part again. */
  lemma FailedFlushSendsTwice(o: Output, first: seq<SendResult>, second: seq<SendResult>)
    requires o.buffered && !Overflowed(o, None, first).1
    requires Overflowed(Overflowed(o, None, first).0, None, second).1
    ensures Overflowed(Overflowed(o, None, first).0, None, second).0.wire ==
            o.wire + o.pending[..Flushed(o.pending, first).0] + o.pending
  {
  }

  lemma SentMore(wire: seq<Byte>, out: seq<Byte>, sent: nat, k: nat)
    requires sent + k <= |out|
    ensures wire + out[..sent] + out[sent..][..k] == wire + out[..sent + k]
    ensures out[sent..][k..] == out[sent + k..]
  {
  }

  class OutputStream {
    var put: array<Byte>
    var pnext: nat
    var wire: seq<Byte>   // what the socket has accepted so far

    ghost predicate Valid()
      reads this
    {
      (put.Length == BUFFER_SIZE || put.Length == 0) && pnext <= put.Length
    }

    ghost function View(): (o: Output)
      requires Valid()
      reads this, put
      ensures WellFormed(o)
    {
      Output(wire, put[..pnext], put.Length != 0)
    }

    constructor ()
      ensures Valid() && View() == Output([], [], true) && fresh(put)
    {
      put := new Byte[BUFFER_SIZE];
      pnext, wire := 0, [];
    }

    /** The send loop; `false` is an end-of-file result. */
    method Send(out: seq<Byte>, plan: seq<SendResult>) returns (all: bool)
      modifies this`wire
      ensures all == Flushed(out, plan).1
      ensures wire == old(wire) + out[..Flushed(out, plan).0]
    {
      var rest, at := out, 0;
      ghost var sent := 0;
      while |rest| > 0
        invariant at <= |plan| && sent <= |out| && rest == out[sent..]
        invariant wire == old(wire) + out[..sent]
        invariant Flushed(out, plan) == (sent + Flushed(rest, plan[at..]).0, Flushed(rest, plan[at..]).1)
        decreases |plan| - at
      {
        if at == |plan| {
          return false;
        }
        var result := plan[at];
        at := at + 1;
        assert plan[at - 1..][1..] == plan[at..];
        match result
        case Accepted(n) =>
          if n == 0 {
            return false;
          }
          var k := Min(n, |rest|);
          SentMore(old(wire), out, sent, k);
          wire := wire + rest[..k];
          rest, sent := rest[k..], sent + k;
        case BlockedThenReady =>
        case BlockedForGood => return false;
        case SendFailed => return false;
        case SendTimedOut => return false;
      }
      return true;
    }

    method Overflow(c: Option<Byte>, plan: seq<SendResult>) returns (ok: bool)
      requires Valid()
      modifies this, put
      ensures Valid() && put == old(put)
      ensures (View(), ok) == Overflowed(old(View()), c, plan)
    {
      if put.Length == 0 {
        if c.None? {
          return true;
        }
        ok := Send([c.value], plan);
      } else {
        ghost var pending := put[..pnext];
        ok := Send(put[..pnext], plan);
        if ok {
          assert pending[..|pending|] == pending;
          pnext := 0;
          if c.Some? {
            put[pnext] := c.value;
            pnext := pnext + 1;
          }
          assert put[..pnext] == if c.Some? then [c.value] else [];
        }
      }
    }

    method Sputc(c: Byte, plan: seq<SendResult>) returns (ok: bool)
      requires Valid()
      modifies this, put
      ensures Valid() && put == old(put)
      ensures (View(), ok) == Called(old(View()), OutCall.Sputc(c), plan)
    {
      if pnext < put.Length {
        put[pnext] := c;
        pnext := pnext + 1;
        assert put[..pnext] == old(put[..pnext]) + [c];
        ok := true;
      } else {
        ok := Overflow(Some(c), plan);
      }
    }

    method Sync(plan: seq<SendResult>) returns (ok: bool)
      requires Valid()
      modifies this, put
      ensures Valid() && put == old(put)
      ensures (View(), ok) == Called(old(View()), OutCall.Sync, plan)
    {
      ok := Overflow(None, plan);
    }

    /** Gives the put area up on request; an area offered in its place is refused. */
    method Setbuf(area: bool, n: int) returns (ok: bool)
      requires Valid()
      modifies this
      ensures Valid() && (put == old(put) || fresh(put))
      ensures forall plan :: (View(), ok) == Called(old(View()), OutCall.Setbuf(area, n), plan)
    {
      if pnext == 0 && !area && n == 0 {
        put := new Byte[0];
        return true;
      }
      return false;
    }
  }

  /** The result of each call of a run. */
  function Outcomes(o: Output, calls: seq<Attempt>): (oks: seq<bool>)
    ensures |oks| == |calls|
  {
    if calls == [] then []
    else
      var n := |calls| - 1;
      Outcomes(o, calls[..n]) + [Called(RunOut(o, calls[..n]), calls[n].call, calls[n].plan).1]
  }

  lemma OneMoreCall(o: Output, calls: seq<Attempt>, i: nat)
    requires i < |calls|
    ensures
      var (o', ok) := Called(RunOut(o, calls[..i]), calls[i].call, calls[i].plan);
      RunOut(o, calls[..i + 1]) == o' && Outcomes(o, calls[..i + 1]) == Outcomes(o, calls[..i]) + [ok]
  {
    assert calls[..i + 1][..i] == calls[..i];
  }

  /**
   Performs the calls in order.  What is on the wire and in the put area in the end is what the stream held before
   and what was handed over, exactly when the network never takes a put area in part.
   */
  method Write(stream: OutputStream, calls: seq<Attempt>) returns (oks: seq<bool>)
    requires stream.Valid()
    modifies stream, stream.put
    ensures stream.Valid() && stream.View() == RunOut(old(stream.View()), calls) && oks == Outcomes(old(stream.View()), calls)
    ensures
      var o, o' := old(stream.View()), stream.View();
      o'.wire + o'.pending == o.wire + o.pending + Written(o, calls) <==> NeverBreaks(o, calls)
  {
    oks := [];
    for i := 0 to |calls|
      invariant stream.Valid() && (stream.put == old(stream.put) || fresh(stream.put))
      invariant stream.View() == RunOut(old(stream.View()), calls[..i]) && oks == Outcomes(old(stream.View()), calls[..i])
    {
      OneMoreCall(old(stream.View()), calls, i);
      var ok := WriteOne(stream, calls[i]);
      oks := oks + [ok];
    }
    assert calls[..|calls|] == calls;
    ExactlyOnceIff(old(stream.View()), calls);
  }

  method WriteOne(stream: OutputStream, attempt: Attempt) returns (ok: bool)
    requires stream.Valid()
    modifies stream, stream.put
    ensures stream.Valid() && (stream.put == old(stream.put) || fresh(stream.put))
    ensures (stream.View(), ok) == Called(old(stream.View()), attempt.call, attempt.plan)
  {
    match attempt.call {
      case Sputc(c) => ok := stream.Sputc(c, attempt.plan);
      case Overflow(c) => ok := stream.Overflow(c, attempt.plan);
      case Sync => ok := stream.Sync(attempt.plan);
      case Setbuf(area, n) => ok := stream.Setbuf(area, n);
    }
  }

  // ---------------------------------------------------------------- input

  /** One attempt to receive; a `Data` of no bytes is the peer's end of file. */
  datatype ReceiveResult = Data(bytes: seq<Byte>) | WaitThenReady | WaitFailed | ReceiveFailed | ReceiveTimedOut

  /** The most one receive can take. */
  const RECEIVE_MAX := BUFFER_SIZE - PUTBACK_MAX

  /** What the next receive of a plan brings, if it brings anything. */
  function Received(plan: seq<ReceiveResult>): (r: seq<Byte>)
    ensures |r| <= RECEIVE_MAX
    decreases plan
  {
    if plan == [] then []
    else match plan[0]
      case Data(bytes) => bytes[..Min(|bytes|, RECEIVE_MAX)]
      case WaitThenReady => Received(plan[1..])
      case _ => []
  }

  /** The plan's first outcome other than waiting is the arrival of bytes, at position `k`. */
  predicate ArrivesAt(plan: seq<ReceiveResult>, k: int) {
    && 0 <= k < |plan| && plan[k].Data? && plan[k].bytes != []
    && forall j :: 0 <= j < k ==> plan[j] == WaitThenReady
  }

  /** What arrives under the plan: the first 504 bytes of those, or nothing. */
  ghost function Chunk(plan: seq<ReceiveResult>): seq<Byte> {
    if k :| ArrivesAt(plan, k) then plan[k].bytes[..Min(|plan[k].bytes|, 504)] else []
  }

  lemma ArrivesOnce(plan: seq<ReceiveResult>, j: int, k: int)
    requires ArrivesAt(plan, j) && ArrivesAt(plan, k)
    ensures j == k
  {
  }

  lemma {:induction false} ReceivedArrives(plan: seq<ReceiveResult>)
    ensures forall k :: ArrivesAt(plan, k) ==> Received(plan) == plan[k].bytes[..Min(|plan[k].bytes|, 504)]
    ensures (forall k :: !ArrivesAt(plan, k)) ==> Received(plan) == []
  {
    if plan == [] {
    } else if plan[0] == WaitThenReady {
      ReceivedArrives(plan[1..]);
      forall k | ArrivesAt(plan, k) ensures ArrivesAt(plan[1..], k - 1) {
        assert plan[1..][k - 1] == plan[k];
      }
      forall k | ArrivesAt(plan[1..], k) ensures ArrivesAt(plan, k + 1) {
        LaterArrival(plan, k);
      }
    } else if plan[0].Data? && plan[0].bytes != [] {
      assert ArrivesAt(plan, 0);
      forall k | ArrivesAt(plan, k) ensures k == 0 {
        ArrivesOnce(plan, 0, k);
      }
    }
  }

  lemma LaterArrival(plan: seq<ReceiveResult>, k: int)
    requires plan != [] && plan[0] == WaitThenReady && ArrivesAt(plan[1..], k)
    ensures ArrivesAt(plan, k + 1)
  {
    forall j | 0 <= j < k + 1 ensures plan[j] == WaitThenReady {
      assert j > 0 ==> plan[j] == plan[1..][j - 1];
    }
  }

  lemma ReceivedIsChunk(plan: seq<ReceiveResult>)
    ensures Received(plan) == Chunk(plan)
  {
    ReceivedArrives(plan);
  }

  /** Everything received so far, everything read so far, and the get area. */
  datatype Input = Input(received: seq<Byte>, read: seq<Byte>, unread: seq<Byte>)

  /** The effect of `underflow`; it reports the end of file on a get area that is not empty. */
  function Underflowed(i: Input, plan: seq<ReceiveResult>): (Input, Option<Byte>) {
    if i.unread != [] then (i, None)
    else
      var bytes := Received(plan);
      if bytes == [] then (i, None) else (i.(received := i.received + bytes, unread := bytes), Some(bytes[0]))
  }

  /** Reading one byte, from the get area or by way of `underflow`. */
  function Bumped(i: Input, plan: seq<ReceiveResult>): (Input, Option<Byte>) {
    var (i', c) := if i.unread != [] then (i, Some(i.unread[0])) else Underflowed(i, plan);
    if c.Some? && i'.unread != [] then (i'.(read := i'.read + [c.value], unread := i'.unread[1..]), c) else (i', c)
  }

  /** Looking at the next byte without reading it. */
  function Peeked(i: Input, plan: seq<ReceiveResult>): (Input, Option<Byte>) {
    if i.unread != [] then (i, Some(i.unread[0])) else Underflowed(i, plan)
  }

  datatype InCall = Bump(plan: seq<ReceiveResult>) | Peek(plan: seq<ReceiveResult>) | Underflow(plan: seq<ReceiveResult>)

  function CalledIn(i: Input, call: InCall): (Input, Option<Byte>) {
    match call
    case Bump(plan) => Bumped(i, plan)
    case Peek(plan) => Peeked(i, plan)
    case Underflow(plan) => Underflowed(i, plan)
  }

  function RunIn(i: Input, calls: seq<InCall>): Input {
    if calls == [] then i else CalledIn(RunIn(i, calls[..|calls| - 1]), calls[|calls| - 1]).0
  }

  /** The bytes the reader was given by reading, not by looking. */
  function Returned(i: Input, calls: seq<InCall>): seq<Byte> {
    if calls == [] then []
    else
      var n := |calls| - 1;
      var c := CalledIn(RunIn(i, calls[..n]), calls[n]).1;
      Returned(i, calls[..n]) + if calls[n].Bump? && c.Some? then [c.value] else []
  }

  /** An underflow takes what arrives into an empty get area, and shows its first byte. */
  lemma UnderflowTakesChunk(i: Input, plan: seq<ReceiveResult>)
    ensures Underflowed(i, plan) ==
      if i.unread != [] || Chunk(plan) == [] then (i, None)
      else (Input(i.received + Chunk(plan), i.read, Chunk(plan)), Some(Chunk(plan)[0]))
  {
    ReceivedIsChunk(plan);
  }

  /** All bytes that arrive during the calls: a call looks for more when everything so far has been returned. */
  ghost function Arrived(i: Input, calls: seq<InCall>): seq<Byte> {
    if calls == [] then []
    else
      var n := |calls| - 1;
      var before := Arrived(i, calls[..n]);
      before + if |i.unread + before| == |Returned(i, calls[..n])| then Chunk(calls[n].plan) else []
  }

  /** One call: what it returns and leaves is what was there, and what arrives when nothing was. */
  lemma OneCallGets(i: Input, call: InCall)
    ensures
      var (i', c) := CalledIn(i, call);
      var given := if call.Bump? && c.Some? then [c.value] else [];
      var more := if i.unread == [] then Chunk(call.plan) else [];
      given + i'.unread == i.unread + more && i'.received == i.received + more
  {
    UnderflowTakesChunk(i, call.plan);
    var (i', c) := CalledIn(i, call);
    if i.unread != [] {
      assert [i.unread[0]] + i.unread[1..] == i.unread + [] && [] + i.unread == i.unread + [];
      assert i.received + [] == i.received;
    } else {
      var more := Chunk(call.plan);
      assert more != [] ==> [more[0]] + more[1..] == more;
      assert [] + more == more && i.received + [] == i.received && i.unread + more == more;
    }
  }

  /**
   Over any calls, the bytes the reader was given, followed by the get area, are those that were in the get area,
   followed by all bytes that arrived, in order.
   */
  lemma {:induction false} ReaderGetsWhatArrives(i: Input, calls: seq<InCall>)
    ensures
      var i' := RunIn(i, calls);
      && Returned(i, calls) + i'.unread == i.unread + Arrived(i, calls)
      && i'.received == i.received + Arrived(i, calls)
  {
    if calls == [] {
    } else {
      var n := |calls| - 1;
      var mid := RunIn(i, calls[..n]);
      ReaderGetsWhatArrives(i, calls[..n]);
      OneCallGets(mid, calls[n]);
      assert mid.unread == [] <==> |i.unread + Arrived(i, calls[..n])| == |Returned(i, calls[..n])|;
      var c := CalledIn(mid, calls[n]).1;
      GivenAndLeft(Returned(i, calls[..n]), mid.unread, i.unread, Arrived(i, calls[..n]),
                   if calls[n].Bump? && c.Some? then [c.value] else [], RunIn(i, calls).unread,
                   if mid.unread == [] then Chunk(calls[n].plan) else []);
      Reassociate(i.received, Arrived(i, calls[..n]), if mid.unread == [] then Chunk(calls[n].plan) else []);
    }
  }

  lemma GivenAndLeft(returned: seq<Byte>, left: seq<Byte>, start: seq<Byte>, arrived: seq<Byte>,
                     given: seq<Byte>, left': seq<Byte>, more: seq<Byte>)
    requires returned + left == start + arrived && given + left' == left + more
    ensures (returned + given) + left' == start + (arrived + more)
  {
    calc {
      (returned + given) + left';
      returned + (given + left');
      returned + (left + more);
      (returned + left) + more;
      (start + arrived) + more;
      start + (arrived + more);
    }
  }

  /** However the data is cut into receives, the reader is given every byte received, once and in order. */
  lemma {:induction false} InputIsExactlyOnce(i: Input, calls: seq<InCall>)
    requires i.read + i.unread == i.received
    ensures
      var i' := RunIn(i, calls);
      i'.read == i.read + Returned(i, calls) && i'.read + i'.unread == i'.received
  {
    if calls == [] {
    } else {
      var n := |calls| - 1;
      InputIsExactlyOnce(i, calls[..n]);
      var mid := RunIn(i, calls[..n]);
      var c := CalledIn(mid, calls[n]).1;
      OneReadIsExact(mid, calls[n]);
      Reassociate(i.read, Returned(i, calls[..n]), if calls[n].Bump? && c.Some? then [c.value] else []);
    }
  }

  lemma OneReadIsExact(i: Input, call: InCall)
    requires i.read + i.unread == i.received
    ensures
      var (i', c) := CalledIn(i, call);
      && i'.read == i.read + (if call.Bump? && c.Some? then [c.value] else [])
      && i'.read + i'.unread == i'.received
  {
    assert i.read + [] == i.read;
    if i.unread == [] {
      assert i.read == i.received;
    } else {
      assert i.read + [i.unread[0]] + i.unread[1..] == i.read + i.unread;
    }
  }

  /**
   After any calls, the next read fails exactly when every byte received so far has been returned and the network
   brings nothing; otherwise it returns the first byte received and not yet returned.
   */
  lemma NextReadIsNextByte(i: Input, calls: seq<InCall>, plan: seq<ReceiveResult>)
    requires i.read + i.unread == i.received
    ensures
      var before := i.read + Returned(i, calls);
      var (i', c) := CalledIn(RunIn(i, calls), Bump(plan));
      if before == RunIn(i, calls).received && Received(plan) == [] then c.None?
      else |before| < |i'.received| && c == Some(i'.received[|before|])
  {
    InputIsExactlyOnce(i, calls);
    var mid := RunIn(i, calls);
    assert mid.unread == [] ==> mid.read == mid.received;
    assert mid.unread != [] ==> mid.received[|mid.read|] == mid.unread[0];
  }

  class InputStream {
    const get: array<Byte>
    var gnext: nat
    var gend: nat
    var received: seq<Byte>
    ghost var read: seq<Byte>

    ghost predicate Valid()
      reads this
    {
      get.Length == BUFFER_SIZE && PUTBACK_MAX <= gnext <= gend <= BUFFER_SIZE
    }

    ghost function View(): Input
      requires Valid()
      reads this, get
    {
      Input(received, read, get[gnext..gend])
    }

    constructor ()
      ensures Valid() && View() == Input([], [], []) && fresh(get)
    {
      get := new Byte[BUFFER_SIZE];
      gnext, gend, received, read := PUTBACK_MAX, PUTBACK_MAX, [], [];
    }

    /** Receives into the array behind the putback zone, which stays as it is. */
    method Underflow(plan: seq<ReceiveResult>) returns (c: Option<Byte>)
      requires Valid()
      modifies this`gnext, this`gend, this`received, get
      ensures Valid() && get[..PUTBACK_MAX] == old(get[..PUTBACK_MAX])
      ensures (View(), c) == Underflowed(old(View()), plan)
      ensures old(gnext == gend) ==> View().unread == Chunk(plan) && received == old(received) + Chunk(plan)
    {
      UnderflowTakesChunk(View(), plan);
      assert received + [] == received;
      c := Receive(plan);
    }

    /** The loop of receive attempts. */
    method Receive(plan: seq<ReceiveResult>) returns (c: Option<Byte>)
      requires Valid()
      modifies this`gnext, this`gend, this`received, get
      ensures Valid() && get[..PUTBACK_MAX] == old(get[..PUTBACK_MAX])
      ensures (View(), c) == Underflowed(old(View()), plan)
    {
      if gnext != gend {
        return None;
      }
      var at := 0;
      while at < |plan|
        invariant at <= |plan| && Received(plan) == Received(plan[at..])
        invariant View() == old(View()) && get[..] == old(get[..]) && gnext == gend
      {
        assert plan[at..][1..] == plan[at + 1..];
        match plan[at]
        case Data(data) =>
          var bytes := data[..Min(|data|, RECEIVE_MAX)];
          if bytes == [] {
            return None;
          }
          forall i | 0 <= i < |bytes| {
            get[PUTBACK_MAX + i] := bytes[i];
          }
          gnext, gend := PUTBACK_MAX, PUTBACK_MAX + |bytes|;
          received := received + bytes;
          assert get[gnext..gend] == bytes;
          return Some(get[gnext]);
        case WaitThenReady => at := at + 1;
        case WaitFailed => return None;
        case ReceiveFailed => return None;
        case ReceiveTimedOut => return None;
      }
      return None;
    }

    method Sbumpc(plan: seq<ReceiveResult>) returns (c: Option<Byte>)
      requires Valid()
      modifies this, get
      ensures Valid()
      ensures (View(), c) == Bumped(old(View()), plan)
    {
      c := Sgetc(plan);
      if c.Some? {
        gnext := gnext + 1;
        read := read + [c.value];
      }
    }

    /** Looks at the next byte. */
    method Sgetc(plan: seq<ReceiveResult>) returns (c: Option<Byte>)
      requires Valid()
      modifies this, get
      ensures Valid()
      ensures (View(), c) == Peeked(old(View()), plan)
    {
      if gnext < gend {
        c := Some(get[gnext]);
      } else {
        c := Underflow(plan);
      }
    }
  }

  lemma OneMoreRead(i: Input, calls: seq<InCall>, n: nat)
    requires n < |calls|
    ensures
      var (i', c) := CalledIn(RunIn(i, calls[..n]), calls[n]);
      && RunIn(i, calls[..n + 1]) == i'
      && Returned(i, calls[..n + 1]) == Returned(i, calls[..n]) + if calls[n].Bump? && c.Some? then [c.value] else []
  {
    assert calls[..n + 1][..n] == calls[..n];
  }

  /** Performs the calls in order: the bytes read, followed by the get area, are everything received, in order. */
  method Read(stream: InputStream, calls: seq<InCall>) returns (got: seq<Byte>)
    requires stream.Valid() && stream.View().read + stream.View().unread == stream.View().received
    modifies stream, stream.get
    ensures stream.Valid() && stream.View() == RunIn(old(stream.View()), calls) && got == Returned(old(stream.View()), calls)
    ensures old(stream.View()).read + got + stream.View().unread == stream.View().received
    ensures got + stream.View().unread == old(stream.View()).unread + Arrived(old(stream.View()), calls)
  {
    got := [];
    for n := 0 to |calls|
      invariant stream.Valid()
      invariant stream.View() == RunIn(old(stream.View()), calls[..n]) && got == Returned(old(stream.View()), calls[..n])
    {
      OneMoreRead(old(stream.View()), calls, n);
      var c := ReadOne(stream, calls[n]);
      if calls[n].Bump? && c.Some? {
        got := got + [c.value];
      }
    }
    assert calls[..|calls|] == calls;
    InputIsExactlyOnce(old(stream.View()), calls);
    ReaderGetsWhatArrives(old(stream.View()), calls);
  }

  method ReadOne(stream: InputStream, call: InCall) returns (c: Option<Byte>)
    requires stream.Valid()
    modifies stream, stream.get
    ensures stream.Valid() && (stream.View(), c) == CalledIn(old(stream.View()), call)
  {
    match call {
      case Bump(plan) => c := stream.Sbumpc(plan);
      case Peek(plan) => c := stream.Sgetc(plan);
      case Underflow(plan) => c := stream.Underflow(plan);
    }
  }
}
