/**
 The growing buffer of the exam application: one array, four offsets, compaction in place and a size limit.

 `Area` is the value of a buffer: the consumed bytes still in front, the input sequence, and the output sequence.
 `Queue` is what a user takes it for.  A thrown length error is the reply `TooLong`; `Undefined` is the reply to a
 call that the base class gives no meaning.
 */
module StreamBuffer {
  import opened Basics

  const SIZE_MAX: int := 0xFFFF_FFFF_FFFF_FFFF
  const INT_MAX: int := 0x7FFF_FFFF
  const BUFFER_DELTA := 128

  type SizeT = x: int | 0 <= x <= SIZE_MAX

  /** The value of a `size_t` cast to `int`. */
  function ToInt(n: nat): (b: int)
    ensures b <= n && -0x8000_0000 <= b < 0x8000_0000 && (n - b) % 0x1_0000_0000 == 0
  {
    var low := n % 0x1_0000_0000;
    if low <= INT_MAX then low else low - 0x1_0000_0000
  }

  /** The cast keeps a count exactly up to 2^31 - 1, so counts of a buffer no larger than that are safe. */
  lemma CastIsExactIff(n: nat)
    ensures ToInt(n) == n <==> n <= 0x7FFF_FFFF
  {
  }

  /** The sum of an address and a count, as the machine computes it. */
  function AddressSum(address: SizeT, n: SizeT): SizeT {
    if address + n <= SIZE_MAX then address + n else address + n - SIZE_MAX - 1
  }

  // ---------------------------------------------------------------- the value of a buffer

  datatype Area = Area(address: nat, capacity: nat, dead: seq<Byte>, contents: seq<Byte>, room: seq<Byte>)

  /** What an allocator answers to a request for a longer array. */
  datatype Growth = Growth(capacity: nat, address: nat)

  /** The allocator's choice, when it holds `length` bytes inside the address space. */
  function Placed(grown: Growth, length: SizeT): (p: Growth)
    ensures length <= p.capacity && p.address + p.capacity <= SIZE_MAX
  {
    if length <= grown.capacity && grown.address + grown.capacity <= SIZE_MAX then grown else Growth(length, 0)
  }

  function Length(a: Area): nat {
    |a.dead| + |a.contents| + |a.room|
  }

  predicate Fits(a: Area, max: SizeT) {
    && Length(a) <= max && (Length(a) == 0 ==> max == 0)
    && Max(Length(a), 1) <= a.capacity && a.address + a.capacity <= SIZE_MAX
  }

  /** The bytes behind the contents once these have been moved to the start. */
  function Moved(a: Area): (room: seq<Byte>)
    ensures |room| == |a.dead| + |a.room|
  {
    (a.dead + a.contents + a.room)[|a.contents|..]
  }

  /** The contents have been moved, and the offsets have not. */
  function Failed(a: Area): Area {
    var all, g := a.contents + Moved(a), |a.dead|;
    a.(dead := all[..g], contents := all[g..g + |a.contents|], room := all[g + |a.contents|..])
  }

  function Zeros(n: nat): (s: seq<Byte>)
    ensures |s| == n && forall i :: 0 <= i < n ==> s[i] == 0
  {
    seq(n, _ => 0)
  }

  /** The array got longer: in place as far as the capacity reaches, else where the allocator puts it. */
  function Relocated(a: Area, grown: Growth): Area
    requires Max(Length(a), 1) <= SIZE_MAX
  {
    if Max(Length(a), 1) <= a.capacity then a
    else a.(address := Placed(grown, Length(a)).address, capacity := Placed(grown, Length(a)).capacity)
  }

  /** The effect of `reserve`; `false` is the length error. */
  function Reserved(a: Area, max: SizeT, n: SizeT, grown: Growth): (r: (Area, bool))
    requires Fits(a, max)
    ensures r.1 <==> |a.contents| + n <= max || n <= |a.room|
    ensures r.1 ==> r.0.contents == a.contents && |r.0.room| >= n
    ensures Fits(r.0, max)
  {
    if n <= |a.room| then (a, true)
    else if n <= |Moved(a)| then (a.(dead := [], room := Moved(a)), true)
    else if |a.contents| + n <= max then
      (Relocated(a.(dead := [], room := Moved(a) + Zeros(n - |Moved(a)|)), grown), true)
    else (Failed(a), false)
  }

  /** The first byte of the room becomes `c` and belongs to the contents. */
  function Stored(a: Area, c: Byte): Area
    requires a.room != []
  {
    a.(contents := a.contents + [c], room := a.room[1..])
  }

  /** How much an overflow asks for. */
  function Wanted(size: nat, max: SizeT): (n: SizeT)
    ensures n > 0
  {
    if size < max && max - size < BUFFER_DELTA then max - size else BUFFER_DELTA
  }

  /** The effect of putting one byte. */
  function Put(a: Area, max: SizeT, c: Byte, grown: Growth): (r: (Area, bool))
    requires Fits(a, max)
  {
    if a.room != [] then (Stored(a, c), true)
    else
      var (a', ok) := Reserved(a, max, Wanted(|a.contents|, max), grown);
      if ok then (Stored(a', c), true) else (a', false)
  }

  /** Moves the end of the contents by `b` bytes, which may be negative. */
  function Bumped(a: Area, b: int): Area
    requires 0 <= |a.contents| + b <= |a.contents| + |a.room|
  {
    var all := a.contents + a.room;
    a.(contents := all[..|a.contents| + b], room := all[|a.contents| + b..])
  }

  function Committed(a: Area, n: SizeT): (Area, bool) {
    var b := ToInt(Min(n, |a.room|));
    if |a.contents| + b < 0 then (a, false) else (Bumped(a, b), true)
  }

  /** Moves the start of the contents by `b` bytes, which may be negative. */
  function Dropped(a: Area, b: int): Area
    requires 0 <= |a.dead| + b <= |a.dead| + |a.contents|
  {
    var all := a.dead + a.contents;
    a.(dead := all[..|a.dead| + b], contents := all[|a.dead| + b..])
  }

  /** The count `consume` goes on with: it compares addresses, and the sum may wrap around. */
  function Clamped(a: Area, n: SizeT): nat
    requires a.address + |a.dead| + |a.contents| <= SIZE_MAX
  {
    var start := a.address + |a.dead|;
    if AddressSum(start, n) > start + |a.contents| then |a.contents| else n
  }

  function Consumed(a: Area, n: SizeT): (Area, bool)
    requires a.address + |a.dead| + |a.contents| <= SIZE_MAX
  {
    var b := ToInt(Clamped(a, n));
    if |a.dead| + b < 0 || b > |a.contents| then (a, false) else (Dropped(a, b), true)
  }

  // ---------------------------------------------------------------- what the single effects mean

  /** What a failed prepare makes of contents `q` that start at offset `g`. */
  function AfterFailure(q: seq<Byte>, g: nat): seq<Byte> {
    if 0 < g < |q| then q[g..] + q[|q| - g..] else q
  }

  /** A failed prepare keeps the offsets and the length of the array, and leaves these contents. */
  lemma FailureContents(a: Area)
    ensures Failed(a).contents == AfterFailure(a.contents, |a.dead|)
    ensures |Failed(a).dead| == |a.dead| && |Failed(a).room| == |a.room|
  {
    var q, g, s := a.contents, |a.dead|, a.contents + Moved(a);
    forall j | 0 <= j < |q| ensures s[g + j] == AfterFailure(q, g)[j] {
      if g + j >= |q| {
        assert s[g + j] == (a.dead + a.contents + a.room)[g + j];
      }
    }
  }

  /** A failed prepare leaves all contents of length `n` intact exactly when they start at 0, or at `n` or later. */
  lemma FailureKeepsContentsIff(n: nat, g: nat)
    ensures (forall q: seq<Byte> :: |q| == n ==> AfterFailure(q, g) == q) <==> g == 0 || g >= n
  {
    if 0 < g < n {
      var q: seq<Byte> := seq(n, i => if i == g then 1 else 0);
      assert AfterFailure(q, g)[0] == q[g];
      assert AfterFailure(q, g) != q;
    }
  }

  /** Putting a byte fails exactly on a buffer filled to its limit, which it leaves as it is. */
  lemma PutIsExact(a: Area, max: SizeT, c: Byte, grown: Growth)
    requires Fits(a, max)
    ensures
      var (a', ok) := Put(a, max, c, grown);
      && Fits(a', max) && (ok <==> |a.contents| < max)
      && a'.contents == a.contents + (if ok then [c] else [])
      && (!ok ==> a' == a) && (a.room != [] ==> a'.room == a.room[1..])
      && (ok && a.room == [] ==> |a'.room| == Max(|a.dead|, Min(128, max - |a.contents|)) - 1)
  {
    if a.room == [] {
      var n := Wanted(|a.contents|, max);
      if |a.contents| + n > max {
        assert a.dead == [] && a.room == [];
        assert Failed(a) == a;
      }
    }
  }

  /**
   What `reserve` leaves.  It succeeds exactly within the limit: with no change when there is room, else with no consumed
   bytes in front and just the room that is asked for or there is.  A failure keeps all offsets and spoils the contents.
   */
  lemma ReservedIsExact(a: Area, max: SizeT, n: SizeT, grown: Growth)
    requires Fits(a, max)
    ensures
      var (a', ok) := Reserved(a, max, n, grown);
      && (ok <==> |a.contents| + n <= max || n <= |a.room|) && |a.contents| + |a.room| <= max
      && if ok then
           && a'.contents == a.contents
           && if n <= |a.room| then a' == a else a'.dead == [] && |a'.room| == Max(n, |a.dead| + |a.room|)
         else
           && a'.contents == AfterFailure(a.contents, |a.dead|)
           && |a'.dead| == |a.dead| && |a'.room| == |a.room|
  {
    FailureContents(a);
  }

  /** A commit moves the first min(n, room) bytes of the room exactly when the cast keeps that count. */
  lemma CommitIsExactIff(a: Area, n: SizeT)
    ensures
      var k := Min(n, |a.room|);
      Committed(a, n) == (a.(contents := a.contents + a.room[..k], room := a.room[k..]), true) <==> k <= INT_MAX
  {
    var k, b := Min(n, |a.room|), ToInt(Min(n, |a.room|));
    CastIsExactIff(k);
    if |a.contents| + b >= 0 {
      var all := a.contents + a.room;
      assert |Bumped(a, b).contents| == |a.contents| + b;
      assert all[..|a.contents| + k] == a.contents + a.room[..k];
      assert all[|a.contents| + k..] == a.room[k..];
    }
  }

  /** When a consume drops min(n, size) bytes. */
  predicate ConsumesMin(a: Area, n: SizeT) {
    if a.address + |a.dead| + n <= SIZE_MAX then Min(n, |a.contents|) <= INT_MAX else ToInt(n) == |a.contents|
  }

  /** A consume drops the first min(n, size) bytes exactly when neither the address nor the cast wraps badly. */
  lemma ConsumeIsExactIff(a: Area, n: SizeT)
    requires a.address + |a.dead| + |a.contents| <= SIZE_MAX
    ensures
      var k := Min(n, |a.contents|);
      Consumed(a, n) == (a.(dead := a.dead + a.contents[..k], contents := a.contents[k..]), true) <==> ConsumesMin(a, n)
  {
    var k, b, all := Min(n, |a.contents|), ToInt(Clamped(a, n)), a.dead + a.contents;
    CastIsExactIff(k);
    if 0 <= |a.dead| + b <= |all| {
      assert |Dropped(a, b).dead| == |a.dead| + b;
    }
    assert all[..|a.dead| + k] == a.dead + a.contents[..k];
    assert all[|a.dead| + k..] == a.contents[k..];
  }

  lemma ConsumesTheMinimum(a: Area, n: SizeT)
    requires a.address + |a.dead| + |a.contents| <= SIZE_MAX && ConsumesMin(a, n)
    ensures
      var k := Min(n, |a.contents|);
      Consumed(a, n) == (a.(dead := a.dead + a.contents[..k], contents := a.contents[k..]), true)
  {
    ConsumeIsExactIff(a, n);
  }

  /** The largest count there is, which should empty the buffer, brings the last consumed byte back. */
  lemma ConsumeAllBringsBack(a: Area)
    requires a.dead != [] && a.address + |a.dead| + |a.contents| <= SIZE_MAX
    ensures Consumed(a, SIZE_MAX).0.contents == [a.dead[|a.dead| - 1]] + a.contents
  {
    assert SIZE_MAX % 0x1_0000_0000 == 0xFFFF_FFFF;
    assert Clamped(a, SIZE_MAX) == SIZE_MAX && ToInt(SIZE_MAX) == -1;
  }

  // ---------------------------------------------------------------- any sequence of calls

  datatype Call =
    | Prepare(n: SizeT, grown: Growth)
    | Fill(bytes: seq<Byte>)            // the caller writes received bytes into the prepared area
    | Commit(n: SizeT)
    | Consume(n: SizeT)
    | Sputc(c: Byte, grown: Growth)
    | Sbumpc
    | Sgetc

  datatype Reply = Done | TooLong | Undefined | Got(c: Option<Byte>)

  function First(s: seq<Byte>): Option<Byte> {
    if s == [] then None else Some(s[0])
  }

  function Filled(a: Area, bytes: seq<Byte>): Area
    requires |bytes| <= |a.room|
  {
    a.(room := bytes + a.room[|bytes|..])
  }

  function Called(a: Area, max: SizeT, call: Call): (r: (Area, Reply))
    requires Fits(a, max)
  {
    match call
    case Prepare(n, grown) =>
      var (a', ok) := Reserved(a, max, n, grown);
      (a', if ok then Done else TooLong)
    case Fill(bytes) => if |bytes| <= |a.room| then (Filled(a, bytes), Done) else (a, Undefined)
    case Commit(n) =>
      var (a', ok) := Committed(a, n);
      (a', if ok then Done else Undefined)
    case Consume(n) =>
      var (a', ok) := Consumed(a, n);
      (a', if ok then Done else Undefined)
    case Sputc(c, grown) =>
      var (a', ok) := Put(a, max, c, grown);
      (a', if ok then Done else TooLong)
    case Sbumpc => (Dropped(a, Min(1, |a.contents|)), Got(First(a.contents)))
    case Sgetc => (a, Got(First(a.contents)))
  }

  lemma CalledFits(a: Area, max: SizeT, call: Call)
    requires Fits(a, max)
    ensures Fits(Called(a, max, call).0, max)
  {
    if call.Sputc? {
      PutIsExact(a, max, call.c, call.grown);
    }
  }

  /** The calls in order, up to and including the first that has no meaning. */
  function Run(a: Area, max: SizeT, calls: seq<Call>): (r: (Area, seq<Reply>))
    requires Fits(a, max)
    ensures Fits(r.0, max)
    decreases |calls|
  {
    if calls == [] then (a, [])
    else
      CalledFits(a, max, calls[0]);
      var (a', reply) := Called(a, max, calls[0]);
      if reply == Undefined then (a', [reply])
      else
        var (last, replies) := Run(a', max, calls[1..]);
        (last, [reply] + replies)
  }

  // ---------------------------------------------------------------- the queue it stands for

  /** The queued bytes, and `ready` bytes of prepared space, of which the first ones hold `staged`. */
  datatype Queue = Queue(bytes: seq<Byte>, staged: seq<Byte>, ready: nat)

  function From(s: seq<Byte>, n: nat): seq<Byte> {
    if n <= |s| then s[n..] else []
  }

  /** The first-in first-out queue of at most `max` bytes. */
  function Queued(q: Queue, max: SizeT, call: Call): (Queue, Reply) {
    match call
    case Prepare(n, _) => if |q.bytes| + n <= max then (Queue(q.bytes, [], n), Done) else (Queue(q.bytes, [], 0), TooLong)
    case Fill(bytes) => (q.(staged := bytes + From(q.staged, |bytes|)), Done)
    case Commit(n) =>
      if n <= |q.staged| && n <= q.ready
      then (Queue(q.bytes + q.staged[..n], q.staged[n..], q.ready - n), Done)
      else (q, Undefined)
    case Consume(n) => (q.(bytes := From(q.bytes, n)), Done)
    case Sputc(c, _) =>
      if |q.bytes| < max
      then (Queue(q.bytes + [c], From(q.staged, 1), if q.ready > 0 then q.ready - 1 else 0), Done)
      else (q, TooLong)
    case Sbumpc => (q.(bytes := From(q.bytes, 1)), Got(First(q.bytes)))
    case Sgetc => (q, Got(First(q.bytes)))
  }

  function RunQueue(q: Queue, max: SizeT, calls: seq<Call>): (Queue, seq<Reply>)
    decreases |calls|
  {
    if calls == [] then (q, [])
    else
      var (q', reply) := Queued(q, max, calls[0]);
      var (last, replies) := RunQueue(q', max, calls[1..]);
      (last, [reply] + replies)
  }

  predicate Represents(a: Area, q: Queue) {
    a.contents == q.bytes && q.staged <= a.room && |q.staged| <= q.ready <= |a.room|
  }

  /**
   What a user must not do: prepare too much while the contents start between 0 and their length, write past what was
   prepared, commit what was not written, or use counts that do not survive the cast.
   */
  predicate Proper(a: Area, q: Queue, max: SizeT, call: Call) {
    match call
    case Prepare(n, _) => |q.bytes| + n <= max || |a.dead| == 0 || |a.dead| >= |q.bytes|
    case Fill(bytes) => |bytes| <= q.ready
    case Commit(n) => n <= |q.staged| && n <= INT_MAX
    case Consume(n) => ConsumesMin(a, n)
    case _ => true
  }

  predicate ProperRun(a: Area, q: Queue, max: SizeT, calls: seq<Call>)
    requires Fits(a, max)
    decreases |calls|
  {
    calls != [] ==>
      && Proper(a, q, max, calls[0])
      && (CalledFits(a, max, calls[0]);
          ProperRun(Called(a, max, calls[0]).0, Queued(q, max, calls[0]).0, max, calls[1..]))
  }

  lemma PrepareRefines(a: Area, q: Queue, max: SizeT, n: SizeT, grown: Growth)
    requires Fits(a, max) && Represents(a, q) && Proper(a, q, max, Prepare(n, grown))
    ensures
      var (a', r) := Called(a, max, Prepare(n, grown));
      var (q', r') := Queued(q, max, Prepare(n, grown));
      r == r' && Represents(a', q')
  {
    FailureContents(a);
  }

  lemma CommitRefines(a: Area, q: Queue, max: SizeT, n: SizeT)
    requires Fits(a, max) && Represents(a, q) && Proper(a, q, max, Commit(n))
    ensures
      var (a', r) := Called(a, max, Commit(n));
      var (q', r') := Queued(q, max, Commit(n));
      r == r' && Represents(a', q')
  {
    CommitIsExactIff(a, n);
    assert a.room[..n] == q.staged[..n];
  }

  lemma CallRefines(a: Area, q: Queue, max: SizeT, call: Call)
    requires Fits(a, max) && Represents(a, q) && Proper(a, q, max, call)
    ensures
      var (a', r) := Called(a, max, call);
      var (q', r') := Queued(q, max, call);
      r == r' != Undefined && Represents(a', q')
  {
    if call.Prepare? {
      PrepareRefines(a, q, max, call.n, call.grown);
    } else if call.Commit? {
      CommitRefines(a, q, max, call.n);
    } else if call.Consume? {
      ConsumeIsExactIff(a, call.n);
    } else if call.Sputc? {
      PutIsExact(a, max, call.c, call.grown);
    }
  }

  /** Every proper run of calls gets from the buffer the replies of the queue, and leaves the bytes of the queue. */
  lemma {:induction false} RefinesQueue(a: Area, q: Queue, max: SizeT, calls: seq<Call>)
    requires Fits(a, max) && Represents(a, q) && ProperRun(a, q, max, calls)
    ensures
      var (a', replies) := Run(a, max, calls);
      var (q', replies') := RunQueue(q, max, calls);
      replies == replies' && Represents(a', q')
    decreases |calls|
  {
    if calls == [] {
    } else {
      CalledFits(a, max, calls[0]);
      CallRefines(a, q, max, calls[0]);
      RefinesQueue(Called(a, max, calls[0]).0, Queued(q, max, calls[0]).0, max, calls[1..]);
    }
  }

  /** The bytes a call puts into the queue, and those it takes out. */
  function Into(q: Queue, max: SizeT, call: Call): seq<Byte> {
    match call
    case Commit(n) => if n <= |q.staged| && n <= q.ready then q.staged[..n] else []
    case Sputc(c, _) => if |q.bytes| < max then [c] else []
    case _ => []
  }

  function OutOf(q: Queue, call: Call): seq<Byte> {
    match call
    case Consume(n) => q.bytes[..Min(n, |q.bytes|)]
    case Sbumpc => q.bytes[..Min(1, |q.bytes|)]
    case _ => []
  }

  function AllInto(q: Queue, max: SizeT, calls: seq<Call>): seq<Byte>
    decreases |calls|
  {
    if calls == [] then [] else Into(q, max, calls[0]) + AllInto(Queued(q, max, calls[0]).0, max, calls[1..])
  }

  function AllOut(q: Queue, max: SizeT, calls: seq<Call>): seq<Byte>
    decreases |calls|
  {
    if calls == [] then [] else OutOf(q, calls[0]) + AllOut(Queued(q, max, calls[0]).0, max, calls[1..])
  }

  /** First in, first out: what was taken out, followed by what is left, is what was there followed by what came in. */
  lemma {:induction false} QueueConserves(q: Queue, max: SizeT, calls: seq<Call>)
    ensures AllOut(q, max, calls) + RunQueue(q, max, calls).0.bytes == q.bytes + AllInto(q, max, calls)
    decreases |calls|
  {
    if calls == [] {
    } else {
      var mid := Queued(q, max, calls[0]).0;
      QueueConserves(mid, max, calls[1..]);
      OneCallConserves(q, max, calls[0]);
      Telescope(q.bytes, Into(q, max, calls[0]), OutOf(q, calls[0]), mid.bytes,
                AllInto(mid, max, calls[1..]), AllOut(mid, max, calls[1..]), RunQueue(mid, max, calls[1..]).0.bytes);
    }
  }

  lemma Telescope(start: seq<Byte>, in1: seq<Byte>, out1: seq<Byte>, mid: seq<Byte>, in2: seq<Byte>, out2: seq<Byte>,
                  last: seq<Byte>)
    requires out1 + mid == start + in1 && out2 + last == mid + in2
    ensures (out1 + out2) + last == start + (in1 + in2)
  {
    calc {
      (out1 + out2) + last;
      out1 + (out2 + last);
      out1 + (mid + in2);
      (out1 + mid) + in2;
      (start + in1) + in2;
      start + (in1 + in2);
    }
  }

  lemma OneCallConserves(q: Queue, max: SizeT, call: Call)
    ensures OutOf(q, call) + Queued(q, max, call).0.bytes == q.bytes + Into(q, max, call)
  {
  }

  // ---------------------------------------------------------------- the object

  /** The bytes from `from` to `to` can be cut at `mid` or at `cut`. */
  lemma Sliced(b: seq<Byte>, from: nat, mid: nat, cut: nat, to: nat)
    requires from <= mid <= to <= |b| && from <= cut <= to
    ensures (b[from..mid] + b[mid..to])[..cut - from] == b[from..cut]
    ensures (b[from..mid] + b[mid..to])[cut - from..] == b[cut..to]
  {
    assert b[from..mid] + b[mid..to] == b[from..to];
  }

  lemma Nested(b: seq<Byte>, end: nat, from: nat, to: nat)
    requires from <= to <= end <= |b|
    ensures b[..end][from..to] == b[from..to]
  {
  }

  function Overwritten(b: seq<Byte>, at: nat, bytes: seq<Byte>): (s: seq<Byte>)
    requires at + |bytes| <= |b|
    ensures |s| == |b|
  {
    b[..at] + bytes + b[at + |bytes|..]
  }

  lemma OverwrittenSlices(b: seq<Byte>, from: nat, at: nat, end: nat, bytes: seq<Byte>)
    requires from <= at && at + |bytes| <= end <= |b|
    ensures
      var s := Overwritten(b, at, bytes);
      s[..from] == b[..from] && s[from..at] == b[from..at] && s[at..end] == bytes + b[at..end][|bytes|..]
  {
  }

  class BasicStreambuf {
    const maxSize: SizeT
    var buffer: array<Byte>
    var address: nat
    var capacity: nat
    var gnext: nat
    var gend: nat
    var pnext: nat
    var pend: nat

    ghost predicate Valid()
      reads this
    {
      && gnext <= gend <= pnext <= pend <= maxSize && (pend == 0 ==> maxSize == 0)
      && buffer.Length == Max(pend, 1) <= capacity && address + capacity <= SIZE_MAX
    }

    ghost function View(): (a: Area)
      requires Valid()
      reads this, buffer
      ensures Fits(a, maxSize)
    {
      Area(address, capacity, buffer[..gnext], Contents(), Room())
    }

    /** The input sequence. */
    ghost function Contents(): seq<Byte>
      requires Valid()
      reads this, buffer
    {
      buffer[gnext..pnext]
    }

    /** The output sequence. */
    ghost function Room(): seq<Byte>
      requires Valid()
      reads this, buffer
    {
      buffer[pnext..pend]
    }

    constructor (maximumSize: SizeT, grown: Growth)
      ensures Valid() && maxSize == maximumSize && fresh(buffer)
      ensures Contents() == [] && |Room()| == Min(maximumSize, 128) && gnext == 0
    {
      maxSize := maximumSize;
      var end := Min(maximumSize, BUFFER_DELTA);
      var length: SizeT := Max(end, 1);
      buffer := new Byte[length];
      var placed := Placed(grown, length);
      address, capacity := placed.address, placed.capacity;
      gnext, gend, pnext, pend := 0, 0, 0, end;
    }

    method Size() returns (n: nat)
      requires Valid()
      ensures n == |Contents()| <= maxSize
    {
      n := pnext - gnext;
    }

    /** Makes room for `n` bytes, moving or growing the array; a failed call has moved the bytes but not the offsets. */
    method Reserve(n: SizeT, grown: Growth) returns (ok: bool)
      requires Valid()
      modifies this, buffer
      ensures Valid() && (buffer == old(buffer) || fresh(buffer))
      ensures (View(), ok) == Reserved(old(View()), maxSize, n, grown)
    {
      if n <= pend - pnext {
        return true;
      }
      ghost var a := View();
      var newNext := pnext;
      if gnext > 0 {
        newNext := newNext - gnext;
      }
      MoveToFront();
      ok := Fit(newNext, n, grown, a);
    }

    /** The second half of `reserve`, on bytes that have been moved to the front. */
    method Fit(newNext: nat, n: SizeT, grown: Growth, ghost a: Area) returns (ok: bool)
      requires Valid() && Fits(a, maxSize) && |a.room| < n && newNext == |a.contents|
      requires View() == Failed(a) && FrontOf(a)
      modifies this
      ensures Valid() && (buffer == old(buffer) || fresh(buffer))
      ensures (View(), ok) == Reserved(a, maxSize, n, grown)
    {
      if n <= pend - newNext {
        Rewind(newNext, pend);
        ok := true;
      } else if n <= maxSize && newNext <= maxSize - n {
        Enlarge(newNext, n, grown, a);
        ok := true;
      } else {
        ok := false;
      }
    }

    /** The array starts with the contents of `a`, and goes on with what the move leaves. */
    ghost predicate FrontOf(a: Area)
      requires Valid()
      reads this, buffer
    {
      && a.address == address && a.capacity == capacity && pend == Length(a)
      && buffer[..|a.contents|] == a.contents && buffer[|a.contents|..pend] == Moved(a)
    }

    /** The longer array, for bytes that have been moved to the front. */
    method Enlarge(newNext: nat, n: SizeT, grown: Growth, ghost a: Area)
      requires Valid() && newNext == |a.contents| && pend - newNext < n && newNext + n <= maxSize
      requires FrontOf(a)
      modifies this
      ensures Valid() && fresh(buffer)
      ensures View() == Relocated(a.(dead := [], room := Moved(a) + Zeros(n - |Moved(a)|)), grown)
    {
      Lengthen(newNext + n, grown, a);
      assert buffer[..newNext] == a.contents;
      assert buffer[newNext..newNext + n] == Moved(a) + Zeros(n - |Moved(a)|);
      Rewind(newNext, newNext + n);
      assert Length(a.(dead := [], room := Moved(a) + Zeros(n - |Moved(a)|))) == newNext + n;
    }

    method Lengthen(newEnd: SizeT, grown: Growth, ghost a: Area)
      requires Valid() && FrontOf(a) && pend < newEnd
      modifies this`buffer, this`capacity, this`address
      ensures fresh(buffer) && buffer.Length == newEnd
      ensures buffer[..|a.contents|] == a.contents
      ensures buffer[|a.contents|..newEnd] == Moved(a) + Zeros(newEnd - pend)
      ensures newEnd <= a.capacity ==> capacity == a.capacity && address == a.address
      ensures newEnd > a.capacity ==>
        capacity == Placed(grown, newEnd).capacity && address == Placed(grown, newEnd).address
    {
      FrontSlices(a, newEnd - |a.contents|);
      Resize(newEnd, grown);
    }

    /** What the longer array holds. */
    lemma FrontSlices(a: Area, n: nat)
      requires Valid() && FrontOf(a) && |Moved(a)| < n
      ensures
        var longer := buffer[..pend] + Zeros(n - |Moved(a)|);
        longer[..|a.contents|] == a.contents &&
        longer[|a.contents|..|a.contents| + n] == Moved(a) + Zeros(n - |Moved(a)|)
    {
      assert buffer[..pend] == buffer[..|a.contents|] + buffer[|a.contents|..pend];
    }

    /** Sets the offsets for contents at the start of the array. */
    method Rewind(newNext: nat, newEnd: nat)
      requires newNext <= newEnd <= maxSize && (newEnd == 0 ==> maxSize == 0)
      requires buffer.Length == Max(newEnd, 1) <= capacity && address + capacity <= SIZE_MAX
      modifies this`gnext, this`gend, this`pnext, this`pend
      ensures Valid() && View() == Area(address, capacity, [], old(buffer[..newNext]), old(buffer[newNext..newEnd]))
    {
      gnext, gend, pnext, pend := 0, newNext, newNext, newEnd;
      assert buffer[..] == old(buffer[..]);
    }

    method MoveToFront()
      requires Valid()
      modifies buffer
      ensures View() == Failed(old(View())) && FrontOf(old(View()))
    {
      ghost var a := View();
      BehindContents();
      Memmove(pnext - gnext);
      SplitFront(a);
    }

    lemma BehindContents()
      requires Valid()
      ensures buffer[pnext - gnext..pend] == Moved(View())
    {
      assert buffer[..pend] == View().dead + View().contents + View().room;
    }

    /** Copies `n` bytes from the get pointer to the start of the array. */
    method Memmove(n: nat)
      requires gnext + n <= pend <= buffer.Length
      modifies buffer
      ensures buffer[..pend] == old(buffer[gnext..gnext + n]) + old(buffer[n..pend])
    {
      forall i | 0 <= i < n {
        buffer[i] := buffer[gnext + i];
      }
    }

    lemma SplitFront(a: Area)
      requires Valid() && a.address == address && a.capacity == capacity
      requires |a.dead| == gnext && |a.contents| == pnext - gnext && |a.room| == pend - pnext
      requires buffer[..pend] == a.contents + Moved(a)
      ensures View() == Failed(a) && FrontOf(a)
    {
      var all, n := a.contents + Moved(a), pnext - gnext;
      assert all[..n] == a.contents && all[n..] == Moved(a);
      Nested(buffer[..], pend, 0, n);
      Nested(buffer[..], pend, n, pend);
      Nested(buffer[..], pend, 0, gnext);
      Nested(buffer[..], pend, gnext, pnext);
      Nested(buffer[..], pend, pnext, pend);
    }

    /** Lengthens the array with zeros; the old bytes stay in front. */
    method Resize(n: SizeT, grown: Growth)
      requires Valid() && pend < n
      modifies this`buffer, this`capacity, this`address
      ensures fresh(buffer) && buffer.Length == n
      ensures buffer[..] == old(buffer[..pend]) + Zeros(n - old(pend))
      ensures n <= old(capacity) ==> capacity == old(capacity) && address == old(address)
      ensures n > old(capacity) ==> capacity == Placed(grown, n).capacity && address == Placed(grown, n).address
    {
      var longer := new Byte[n];
      forall i | 0 <= i < n {
        longer[i] := if i < pend then buffer[i] else 0;
      }
      buffer := longer;
      if n > capacity {
        var placed := Placed(grown, n);
        capacity, address := placed.capacity, placed.address;
      }
    }

    /** Fails exactly when the limit would be passed; a failed call may already have moved bytes. */
    method Prepare(n: SizeT, grown: Growth) returns (ok: bool)
      requires Valid()
      modifies this, buffer
      ensures Valid() && (buffer == old(buffer) || fresh(buffer))
      ensures (View(), ok) == Reserved(old(View()), maxSize, n, grown)
      ensures ok <==> |old(Contents())| + n <= maxSize
      ensures ok ==> Contents() == old(Contents()) && |Room()| >= n
      ensures n <= |old(Room())| ==> Room() == old(Room())
      ensures ok && n > |old(Room())| ==> gnext == 0 && |Room()| == Max(n, old(gnext) + |old(Room())|)
      ensures !ok ==> Contents() == AfterFailure(old(Contents()), gnext) && gnext == old(gnext)
    {
      ReservedIsExact(View(), maxSize, n, grown);
      ok := Reserve(n, grown);
    }

    /** The caller writes received bytes to the front of the output sequence. */
    method Fill(bytes: seq<Byte>)
      requires Valid() && |bytes| <= |Room()|
      modifies buffer
      ensures Valid() && View() == Filled(old(View()), bytes)
    {
      OverwrittenSlices(buffer[..], gnext, pnext, pend, bytes);
      Write(pnext, bytes);
    }

    method Write(at: nat, bytes: seq<Byte>)
      requires at + |bytes| <= buffer.Length
      modifies buffer
      ensures buffer[..] == Overwritten(old(buffer[..]), at, bytes)
    {
      forall i | 0 <= i < |bytes| {
        buffer[at + i] := bytes[i];
      }
    }

    /** Moves the end of the input sequence by the cast count; `false` when that has no meaning. */
    method Commit(n: SizeT) returns (ok: bool)
      requires Valid()
      modifies this
      ensures Valid() && buffer == old(buffer)
      ensures (View(), ok) == Committed(old(View()), n)
      ensures
        var k := Min(n, |old(Room())|);
        k <= INT_MAX ==> ok && Contents() == old(Contents()) + old(Room())[..k] && Room() == old(Room())[k..]
    {
      CommitIsExactIff(View(), n);
      var b := ToInt(Min(n, pend - pnext));
      if pnext + b < gnext {
        return false;
      }
      Pbump(b);
      ok := true;
    }

    /** Moves the put pointer, and the end of the get area with it. */
    method Pbump(b: int)
      requires Valid() && gnext <= pnext + b <= pend
      modifies this`pnext, this`gend
      ensures Valid() && View() == Bumped(old(View()), b)
    {
      ghost var a, cut := View(), pnext + b;
      Sliced(buffer[..], gnext, pnext, cut, pend);
      assert buffer[gnext..cut] == (a.contents + a.room)[..cut - gnext];
      assert buffer[cut..pend] == (a.contents + a.room)[cut - gnext..];
      pnext := pnext + b;
      gend := pnext;
      assert buffer[..] == old(buffer[..]);
      assert View().dead == a.dead && View().contents == buffer[gnext..cut] && View().room == buffer[cut..pend];
    }

    method Gbump(b: int)
      requires Valid() && 0 <= gnext + b <= gend
      modifies this`gnext
      ensures Valid() && View() == Dropped(old(View()), b)
    {
      ghost var a, cut := View(), gnext + b;
      Sliced(buffer[..], 0, gnext, cut, pnext);
      assert buffer[..cut] == (a.dead + a.contents)[..cut] && buffer[cut..pnext] == (a.dead + a.contents)[cut..];
      gnext := gnext + b;
      assert buffer[..] == old(buffer[..]);
      assert View().dead == buffer[..cut] && View().contents == buffer[cut..pnext] && View().room == a.room;
    }

    /** Moves the start of the input sequence by the cast count; `false` when that has no meaning. */
    method Consume(n: SizeT) returns (ok: bool)
      requires Valid()
      modifies this
      ensures Valid() && buffer == old(buffer)
      ensures (View(), ok) == Consumed(old(View()), n)
      ensures old(ConsumesMin(View(), n)) ==>
        ok && Contents() == old(Contents())[Min(n, |old(Contents())|)..] && Room() == old(Room())
    {
      ghost var a := View();
      if ConsumesMin(a, n) {
        ConsumesTheMinimum(a, n);
      }
      Setg();
      ok := ConsumeClamped(n);
    }

    /** Lets the get area reach up to the put pointer. */
    method Setg()
      requires Valid()
      modifies this`gend
      ensures Valid() && gend == pnext && View() == old(View())
    {
      if gend < pnext {
        gend := pnext;
      }
      assert buffer[..] == old(buffer[..]);
    }

    method ConsumeClamped(n: SizeT) returns (ok: bool)
      requires Valid() && gend == pnext
      modifies this`gnext
      ensures Valid() && (View(), ok) == Consumed(old(View()), n)
    {
      var k := if AddressSum(address + gnext, n) > address + pnext then pnext - gnext else n;
      var b := ToInt(k);
      if gnext + b < 0 || gnext + b > pnext {
        return false;
      }
      Gbump(b);
      ok := true;
    }

    method Underflow() returns (c: Option<Byte>)
      requires Valid()
      modifies this`gend
      ensures Valid() && View() == old(View())
      ensures c == First(Contents())
      ensures c.Some? ==> gnext < gend
    {
      if gnext < pnext {
        Setg();
        c := Some(buffer[gnext]);
      } else {
        c := None;
      }
    }

    /** Appends a byte, making room first when there is none; `None` is the end-of-file argument. */
    method Overflow(c: Option<Byte>, grown: Growth) returns (ok: bool)
      requires Valid()
      modifies this, buffer
      ensures Valid() && (buffer == old(buffer) || fresh(buffer))
      ensures (View(), ok) == if c.None? then (old(View()), true) else Put(old(View()), maxSize, c.value, grown)
      ensures ok <==> c.None? || |old(Contents())| < maxSize
      ensures Contents() == old(Contents()) + if ok && c.Some? then [c.value] else []
      ensures c.Some? && old(Room()) != [] ==> Room() == old(Room())[1..]
    {
      ok := true;
      if c.Some? {
        PutIsExact(View(), maxSize, c.value, grown);
        if pnext == pend {
          ok := MakeRoom(grown);
        }
        if ok {
          Store(c.value);
        }
      }
    }

    /** The two requests of an overflow. */
    method MakeRoom(grown: Growth) returns (ok: bool)
      requires Valid() && pnext == pend
      modifies this, buffer
      ensures Valid() && (buffer == old(buffer) || fresh(buffer))
      ensures (View(), ok) == Reserved(old(View()), maxSize, Wanted(|old(Contents())|, maxSize), grown)
      ensures ok ==> pnext < pend
    {
      var size := pnext - gnext;
      if size < maxSize && maxSize - size < BUFFER_DELTA {
        ok := Reserve(maxSize - size, grown);
      } else {
        ok := Reserve(BUFFER_DELTA, grown);
      }
    }

    method Store(c: Byte)
      requires Valid() && pnext < pend
      modifies this`pnext, buffer
      ensures Valid() && View() == Stored(old(View()), c)
    {
      ghost var a := View();
      buffer[pnext] := c;
      pnext := pnext + 1;
      assert buffer[gnext..pnext - 1] == a.contents;
    }

    // -------------------------------------------------------------- the stream operations of the base class

    method Sputc(c: Byte, grown: Growth) returns (ok: bool)
      requires Valid()
      modifies this, buffer
      ensures Valid() && (buffer == old(buffer) || fresh(buffer))
      ensures (View(), ok) == Put(old(View()), maxSize, c, grown)
      ensures ok <==> |old(Contents())| < maxSize
      ensures Contents() == old(Contents()) + if ok then [c] else []
      ensures old(Room()) != [] ==> Room() == old(Room())[1..] && gnext == old(gnext)
    {
      PutIsExact(View(), maxSize, c, grown);
      if pnext < pend {
        Store(c);
        ok := true;
      } else {
        ok := Overflow(Some(c), grown);
      }
    }

    method Sbumpc() returns (c: Option<Byte>)
      requires Valid()
      modifies this
      ensures Valid() && buffer == old(buffer)
      ensures View() == Dropped(old(View()), Min(1, |old(Contents())|))
      ensures c == First(old(Contents()))
      ensures Contents() == (if c.Some? then old(Contents())[1..] else []) && Room() == old(Room())
      ensures gnext == old(gnext) + if c.Some? then 1 else 0
    {
      if gnext < gend {
        c := Some(buffer[gnext]);
        Gbump(1);
      } else {
        c := Underflow();
        if c.Some? {
          Gbump(1);
        }
      }
    }

    // -------------------------------------------------------------- reading from a device

    /**
     The preferred size of a read; both differences are natural numbers.  A read smaller than the caller and the
     limit allow reaches just to the end of the capacity, or has 512 bytes if that is farther.
     */
    method ReadSizeHelper(limit: SizeT) returns (n: SizeT)
      requires Valid()
      ensures |Contents()| + n <= maxSize && n <= limit
      ensures
        var most := Min(limit, maxSize - |Contents()|);
        if most <= 512 || |Contents()| + most <= capacity then n == most
        else n >= 512 && |Contents()| + n >= capacity && (n == 512 || |Contents()| + n == capacity)
    {
      var size := pnext - gnext;
      var spare: nat := capacity - size;
      var left: nat := maxSize - size;
      n := Min(Max(512, spare), Min(limit, left));
    }

    /** A read of the preferred size always finds room. */
    method PrepareRead(limit: SizeT, grown: Growth) returns (n: SizeT)
      requires Valid()
      modifies this, buffer
      ensures Valid() && (buffer == old(buffer) || fresh(buffer))
      ensures Contents() == old(Contents()) && n <= |Room()| && n <= limit
    {
      n := ReadSizeHelper(limit);
      var ok := Prepare(n, grown);
      assert ok;
    }
  }

  // ---------------------------------------------------------------- calls on a buffer

  /** Performs the calls on a buffer, up to and including the first that has no meaning. */
  method Perform(sb: BasicStreambuf, calls: seq<Call>) returns (replies: seq<Reply>)
    requires sb.Valid()
    modifies sb, sb.buffer
    ensures sb.Valid() && (sb.View(), replies) == Run(old(sb.View()), sb.maxSize, calls)
  {
    replies := [];
    var i := 0;
    ContinuedStart(sb.View(), sb.maxSize, calls);
    while i < |calls|
      invariant i <= |calls| && sb.Valid() && (sb.buffer == old(sb.buffer) || fresh(sb.buffer))
      invariant Continued(old(sb.View()), sb.View(), sb.maxSize, calls, i, replies)
    {
      ContinuedStep(old(sb.View()), sb.View(), sb.maxSize, calls, i, replies);
      var reply := PerformOne(sb, calls[i]);
      replies, i := replies + [reply], i + 1;
      if reply == Undefined {
        return;
      }
    }
    assert calls[|calls|..] == [] && replies + [] == replies;
  }

  /** The run goes on from `mid` after `i` calls. */
  ghost predicate Continued(a: Area, mid: Area, max: SizeT, calls: seq<Call>, i: nat, replies: seq<Reply>)
    requires Fits(a, max) && Fits(mid, max) && i <= |calls|
  {
    Run(a, max, calls) == (Run(mid, max, calls[i..]).0, replies + Run(mid, max, calls[i..]).1)
  }

  lemma ContinuedStart(a: Area, max: SizeT, calls: seq<Call>)
    requires Fits(a, max)
    ensures Continued(a, a, max, calls, 0, [])
  {
    assert calls[0..] == calls && [] + Run(a, max, calls).1 == Run(a, max, calls).1;
  }

  lemma ContinuedStep(a: Area, mid: Area, max: SizeT, calls: seq<Call>, i: nat, replies: seq<Reply>)
    requires Fits(a, max) && Fits(mid, max) && i < |calls| && Continued(a, mid, max, calls, i, replies)
    ensures
      var (next, reply) := Called(mid, max, calls[i]);
      && Fits(next, max)
      && if reply == Undefined then Run(a, max, calls) == (next, replies + [reply])
         else Continued(a, next, max, calls, i + 1, replies + [reply])
  {
    CalledFits(mid, max, calls[i]);
    var (next, reply) := Called(mid, max, calls[i]);
    assert calls[i..][0] == calls[i] && calls[i..][1..] == calls[i + 1..];
    if reply != Undefined {
      Reassociate(replies, [reply], Run(next, max, calls[i + 1..]).1);
    }
  }

  lemma Reassociate(x: seq<Reply>, y: seq<Reply>, z: seq<Reply>)
    ensures x + (y + z) == (x + y) + z
  {
  }

  method PerformOne(sb: BasicStreambuf, call: Call) returns (reply: Reply)
    requires sb.Valid()
    modifies sb, sb.buffer
    ensures sb.Valid() && (sb.buffer == old(sb.buffer) || fresh(sb.buffer))
    ensures (sb.View(), reply) == Called(old(sb.View()), sb.maxSize, call)
  {
    if call.Prepare? {
      var ok := sb.Prepare(call.n, call.grown);
      reply := if ok then Done else TooLong;
    } else if call.Sputc? {
      var ok := sb.Sputc(call.c, call.grown);
      reply := if ok then Done else TooLong;
    } else if call.Fill? {
      if |call.bytes| > sb.pend - sb.pnext {
        return Undefined;
      }
      sb.Fill(call.bytes);
      reply := Done;
    } else {
      reply := PerformInPlace(sb, call);
    }
  }

  /** The calls that write no byte of the array. */
  method PerformInPlace(sb: BasicStreambuf, call: Call) returns (reply: Reply)
    requires sb.Valid() && (call.Commit? || call.Consume? || call.Sbumpc? || call.Sgetc?)
    modifies sb
    ensures sb.Valid() && sb.buffer == old(sb.buffer)
    ensures (sb.View(), reply) == Called(old(sb.View()), sb.maxSize, call)
  {
    if call.Commit? {
      var ok := sb.Commit(call.n);
      reply := if ok then Done else Undefined;
    } else if call.Consume? {
      var ok := sb.Consume(call.n);
      reply := if ok then Done else Undefined;
    } else if call.Sbumpc? {
      var c := sb.Sbumpc();
      reply := Got(c);
    } else {
      var c := sb.Underflow();
      reply := Got(c);
    }
  }

  method PutThree(sb: BasicStreambuf, grown: Growth)
    requires sb.Valid() && sb.maxSize == 4 && sb.gnext == 0 && sb.Contents() == [] && |sb.Room()| == 4
    modifies sb, sb.buffer
    ensures sb.Valid() && sb.gnext == 0 && sb.Contents() == [1, 2, 3]
    ensures sb.buffer == old(sb.buffer) || fresh(sb.buffer)
  {
    var put1 := sb.Sputc(1, grown);
    var put2 := sb.Sputc(2, grown);
    var put3 := sb.Sputc(3, grown);
  }

  method FailingPrepare(sb: BasicStreambuf, grown: Growth) returns (ok: bool)
    requires sb.Valid() && sb.maxSize == 4 && sb.gnext == 1 && sb.Contents() == [2, 3]
    modifies sb, sb.buffer
    ensures sb.Valid() && !ok && sb.Contents() == [3, 3]
  {
    ok := sb.Prepare(100, grown);
  }

  /** A new buffer of at most four bytes takes 1, 2, 3, gives 1 back, is asked for too much, and holds 3, 3. */
  method DamagedByPrepare(grown: Growth) returns (sb: BasicStreambuf, taken: Option<Byte>, ok: bool)
    ensures fresh(sb) && sb.Valid() && sb.maxSize == 4
    ensures taken == Some(1) && !ok && sb.Contents() == [3, 3]
  {
    sb := new BasicStreambuf(4, grown);
    PutThree(sb, grown);
    taken := sb.Sbumpc();
    ok := FailingPrepare(sb, grown);
  }
}
