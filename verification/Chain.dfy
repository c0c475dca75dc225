/**
 The message chain between an exam client and the server.

 Every message carries a sequence number and the digest of the message before it.
 The server remembers one `Link` per student: the number it expects next and the digest
 of the last message.  The digest function is a parameter; theorems that need it say that
 it is injective.
 */
module Chain {
  import opened Basics

  type Raw = string      // the bytes of one websocket message
  type Digest = string   // the hexadecimal text of a SHA-256 value

  datatype Header = Header(number: Int64, prevHash: Digest)
  datatype Link = Link(expectedSeq: Int64, lastMsgHash: Digest)
  datatype Fault = SeqMismatch | HashMismatch
  datatype Wire = Wire(hash: Raw -> Digest, header: Raw -> Header)

  ghost predicate Injective(wire: Wire) {
    forall a: Raw, b: Raw :: wire.hash(a) == wire.hash(b) ==> a == b
  }

  /** What the check reports for one message.  The digest is only compared once a positive number is expected. */
  function Verify(link: Link, header: Header): seq<Fault> {
    (if header.number != link.expectedSeq then [SeqMismatch] else []) +
    (if link.expectedSeq > 0 && header.prevHash != link.lastMsgHash then [HashMismatch] else [])
  }

  /** The link after any message, accepted or not, and after the login that opens a session. */
  function Advance(wire: Wire, raw: Raw): Link {
    Link(Inc64(wire.header(raw).number), wire.hash(raw))
  }

  /** All faults of a session; `ms[0]` is the login. */
  function Faults(wire: Wire, ms: seq<Raw>): seq<Fault>
    requires |ms| > 0
  {
    if |ms| == 1 then []
    else
      var n := |ms| - 1;
      Faults(wire, ms[..n]) + Verify(Advance(wire, ms[n - 1]), wire.header(ms[n]))
  }

  predicate Follows(wire: Wire, prev: Raw, m: Raw) {
    && wire.header(m).number == Inc64(wire.header(prev).number)
    && (wire.header(m).number > 0 ==> wire.header(m).prevHash == wire.hash(prev))
  }

  predicate FollowsAt(wire: Wire, ms: seq<Raw>, i: nat)
    requires 0 < i < |ms|
  {
    Follows(wire, ms[i - 1], ms[i])
  }

  /** Every message after the login follows the one before it. */
  ghost predicate Linked(wire: Wire, ms: seq<Raw>) {
    forall i :: 0 < i < |ms| ==> FollowsAt(wire, ms, i)
  }

  /** The check is exact: a session is clean when, and only when, each message follows the one before it. */
  lemma {:induction false} CleanIffLinked(wire: Wire, ms: seq<Raw>)
    requires |ms| > 0
    ensures Faults(wire, ms) == [] <==> Linked(wire, ms)
  {
    if |ms| == 1 {
    } else {
      var n := |ms| - 1;
      CleanIffLinked(wire, ms[..n]);
      assert Faults(wire, ms) == [] <==> Faults(wire, ms[..n]) == [] && FollowsAt(wire, ms, n);
      LinkedPrefix(wire, ms);
    }
  }

  lemma LinkedPrefix(wire: Wire, ms: seq<Raw>)
    requires |ms| > 1
    ensures Linked(wire, ms) <==> Linked(wire, ms[..|ms| - 1]) && FollowsAt(wire, ms, |ms| - 1)
  {
    var n := |ms| - 1;
    forall i | 0 < i < n ensures FollowsAt(wire, ms[..n], i) == FollowsAt(wire, ms, i) {
    }
    if Linked(wire, ms[..n]) && FollowsAt(wire, ms, n) {
      forall i | 0 < i < |ms| ensures FollowsAt(wire, ms, i) {
        assert i < n ==> FollowsAt(wire, ms[..n], i);
      }
    }
    if Linked(wire, ms) {
      forall i | 0 < i < n ensures FollowsAt(wire, ms[..n], i) {
        assert FollowsAt(wire, ms, i);
      }
    }
  }

  /** A session whose numbers stay positive after the login: the case the client produces. */
  predicate InRange(first: int, n: nat) {
    0 <= first && first + n <= INT64_MAX
  }

  predicate InPlace(wire: Wire, ms: seq<Raw>, first: int, i: nat)
    requires i < |ms|
  {
    && wire.header(ms[i]).number == first + i
    && (i > 0 ==> wire.header(ms[i]).prevHash == wire.hash(ms[i - 1]))
  }

  /** `ms` counts up from `first` and every message names the digest of its predecessor. */
  ghost predicate Honest(wire: Wire, ms: seq<Raw>, first: int) {
    forall i :: 0 <= i < |ms| ==> InPlace(wire, ms, first, i)
  }

  /** With a login number of at least 0 and no overflow, the clean sessions are exactly the honest ones. */
  lemma {:induction false} CleanIffHonest(wire: Wire, ms: seq<Raw>)
    requires |ms| > 0 && InRange(wire.header(ms[0]).number, |ms| - 1)
    ensures Faults(wire, ms) == [] <==> Honest(wire, ms, wire.header(ms[0]).number)
  {
    var first := wire.header(ms[0]).number;
    CleanIffLinked(wire, ms);
    if Faults(wire, ms) == [] {
      LinkedCountsUp(wire, ms);
    }
    if Honest(wire, ms, first) {
      forall i | 0 < i < |ms| ensures FollowsAt(wire, ms, i) {
        assert InPlace(wire, ms, first, i) && InPlace(wire, ms, first, i - 1);
      }
    }
  }

  lemma {:induction false} LinkedCountsUp(wire: Wire, ms: seq<Raw>)
    requires |ms| > 0 && InRange(wire.header(ms[0]).number, |ms| - 1)
    requires Linked(wire, ms)
    ensures Honest(wire, ms, wire.header(ms[0]).number)
  {
    if |ms| == 1 {
    } else {
      var n := |ms| - 1;
      var first := wire.header(ms[0]).number;
      LinkedPrefix(wire, ms);
      LinkedCountsUp(wire, ms[..n]);
      assert InPlace(wire, ms[..n], first, n - 1);
      assert FollowsAt(wire, ms, n);
      forall i | 0 <= i < |ms| ensures InPlace(wire, ms, first, i) {
        assert i < n ==> InPlace(wire, ms[..n], first, i);
      }
    }
  }

  // ---------------------------------------------------------------- commitment

  /** Two clean sessions from logins with the same number that end in the same message are the same session. */
  lemma {:induction false} HistoryCommitment(wire: Wire, ms: seq<Raw>, ns: seq<Raw>)
    requires Injective(wire)
    requires |ms| > 0 && |ns| > 0
    requires Faults(wire, ms) == [] && Faults(wire, ns) == []
    requires wire.header(ms[0]).number == wire.header(ns[0]).number
    requires InRange(wire.header(ms[0]).number, |ms| - 1) && InRange(wire.header(ns[0]).number, |ns| - 1)
    requires ms[|ms| - 1] == ns[|ns| - 1]
    ensures ms == ns
  {
    CleanIffHonest(wire, ms);
    CleanIffHonest(wire, ns);
    var first := wire.header(ms[0]).number;
    assert InPlace(wire, ms, first, |ms| - 1) && InPlace(wire, ns, first, |ns| - 1);
    HonestCommitment(wire, ms, ns, first);
  }

  lemma {:induction false} HonestCommitment(wire: Wire, ms: seq<Raw>, ns: seq<Raw>, first: int)
    requires Injective(wire)
    requires |ms| == |ns| > 0 && ms[|ms| - 1] == ns[|ns| - 1]
    requires Honest(wire, ms, first) && Honest(wire, ns, first)
    ensures ms == ns
  {
    var n := |ms| - 1;
    if n == 0 {
    } else {
      assert InPlace(wire, ms, first, n) && InPlace(wire, ns, first, n);
      assert wire.hash(ms[n - 1]) == wire.hash(ns[n - 1]);
      HonestStart(wire, ms, first, n);
      HonestStart(wire, ns, first, n);
      HonestCommitment(wire, ms[..n], ns[..n], first);
      assert ms == ms[..n] + [ms[n]] && ns == ns[..n] + [ns[n]];
    }
  }

  /** How many messages two sessions have in common from their start on. */
  function Shared(ms: seq<Raw>, ns: seq<Raw>): (k: nat)
    ensures k <= |ms| && k <= |ns| && ms[..k] == ns[..k]
    ensures k < |ms| && k < |ns| ==> ms[k] != ns[k]
  {
    if ms != [] && ns != [] && ms[0] == ns[0] then
      var k := Shared(ms[1..], ns[1..]);
      assert ms[..k + 1] == [ms[0]] + ms[1..][..k] && ns[..k + 1] == [ns[0]] + ns[1..][..k];
      k + 1
    else 0
  }

  /**
   Two clean sessions from logins with the same number have a start in common and, from where they part, no message:
   a message of both stands at the same place in the common start.
   */
  lemma CleanSessionsPart(wire: Wire, ms: seq<Raw>, ns: seq<Raw>)
    requires Injective(wire)
    requires |ms| > 0 && |ns| > 0
    requires Faults(wire, ms) == [] && Faults(wire, ns) == []
    requires wire.header(ms[0]).number == wire.header(ns[0]).number
    requires InRange(wire.header(ms[0]).number, |ms| - 1) && InRange(wire.header(ns[0]).number, |ns| - 1)
    ensures forall i, j :: 0 <= i < |ms| && 0 <= j < |ns| && ms[i] == ns[j] ==> i == j < Shared(ms, ns)
  {
    CleanIffHonest(wire, ms);
    CleanIffHonest(wire, ns);
    forall i, j | 0 <= i < |ms| && 0 <= j < |ns| && ms[i] == ns[j] ensures i == j < Shared(ms, ns) {
      CommonIsShared(wire, ms, ns, wire.header(ms[0]).number, i, j);
    }
  }

  lemma CommonIsShared(wire: Wire, ms: seq<Raw>, ns: seq<Raw>, first: int, i: nat, j: nat)
    requires Injective(wire) && Honest(wire, ms, first) && Honest(wire, ns, first)
    requires i < |ms| && j < |ns| && ms[i] == ns[j]
    ensures i == j < Shared(ms, ns)
  {
    assert InPlace(wire, ms, first, i) && InPlace(wire, ns, first, j);
    HonestStart(wire, ms, first, i + 1);
    HonestStart(wire, ns, first, i + 1);
    HonestCommitment(wire, ms[..i + 1], ns[..i + 1], first);
    SharedAtLeast(ms, ns, i + 1);
  }

  lemma {:induction false} SharedAtLeast(ms: seq<Raw>, ns: seq<Raw>, n: nat)
    requires n <= |ms| && n <= |ns| && ms[..n] == ns[..n]
    ensures Shared(ms, ns) >= n
  {
    if n == 0 {
    } else {
      assert ms[0] == ms[..n][0] && ns[0] == ns[..n][0];
      assert ms[1..][..n - 1] == ms[..n][1..] && ns[1..][..n - 1] == ns[..n][1..];
      SharedAtLeast(ms[1..], ns[1..], n - 1);
    }
  }

  lemma HonestStart(wire: Wire, ms: seq<Raw>, first: int, n: nat)
    requires n <= |ms| && Honest(wire, ms, first)
    ensures Honest(wire, ms[..n], first)
  {
    forall i | 0 <= i < n ensures InPlace(wire, ms[..n], first, i) {
      assert InPlace(wire, ms, first, i);
    }
  }

  /** Every clean session of `n` messages after a login numbered `first` is determined by its last message. */
  ghost predicate Commits(first: Int64, n: nat) {
    forall wire: Wire, ms: seq<Raw>, ns: seq<Raw> ::
      && Injective(wire)
      && |ms| == n + 1 && |ns| == n + 1
      && Faults(wire, ms) == [] && Faults(wire, ns) == []
      && wire.header(ms[0]).number == first && wire.header(ns[0]).number == first
      && ms[n] == ns[n]
      ==> ms == ns
  }

  /**
   The exact reach of the commitment.  A login with a negative number, or a session long enough to
   overflow the counter, contains a message whose digest the server does not compare.
   */
  lemma CommitsIff(first: Int64, n: nat)
    requires n > 0
    ensures Commits(first, n) <==> InRange(first, n)
  {
    if InRange(first, n) {
      forall wire: Wire, ms: seq<Raw>, ns: seq<Raw> |
        && Injective(wire)
        && |ms| == n + 1 && |ns| == n + 1
        && Faults(wire, ms) == [] && Faults(wire, ns) == []
        && wire.header(ms[0]).number == first && wire.header(ns[0]).number == first
        && ms[n] == ns[n]
        ensures ms == ns
      {
        HistoryCommitment(wire, ms, ns);
      }
    } else {
      var cut := if first < 0 then 1 else INT64_MAX - first + 1;
      assert Count(first, cut) <= 0;
      Forgery(first, n, cut);
    }
  }

  /** The number of the `i`-th message after a login numbered `first`. */
  function Count(first: Int64, i: nat): (c: Int64)
    ensures first + i <= INT64_MAX ==> c == first + i
  {
    if i == 0 then first else Inc64(Count(first, i - 1))
  }

  /** `i + 1` copies of one letter: the `i`-th message of a toy session. */
  function Toy(letter: char, i: nat): (raw: Raw)
    ensures |raw| == i + 1 && forall k :: 0 <= k <= i ==> raw[k] == letter
  {
    seq(i + 1, _ => letter)
  }

  /** A toy wire: the digest is the message itself, the number is its length, the predecessor its prefix. */
  function ToyWire(first: Int64): Wire {
    Wire((raw: Raw) => raw,
         (raw: Raw) => if raw == "" then Header(0, "") else Header(Count(first, |raw| - 1), raw[..|raw| - 1]))
  }

  /** The toy session that is written in `early` before message `cut` and in 'a' from there on. */
  function ToySession(early: char, n: nat, cut: nat): (ms: seq<Raw>)
    ensures |ms| == n + 1
    ensures forall i :: 0 <= i <= n ==> ms[i] == Toy(if i < cut then early else 'a', i)
  {
    seq(n + 1, i requires 0 <= i => Toy(if i < cut then early else 'a', i))
  }

  lemma ToyHeader(first: Int64, letter: char, i: nat)
    ensures ToyWire(first).header(Toy(letter, i)).number == Count(first, i)
    ensures i > 0 ==> ToyWire(first).header(Toy(letter, i)).prevHash == Toy(letter, i - 1)
  {
    var raw := Toy(letter, i);
    assert raw != "" && |raw| - 1 == i;
    if i > 0 {
      assert raw[..i] == Toy(letter, i - 1);
    }
  }

  lemma ToyIsClean(first: Int64, early: char, n: nat, cut: nat)
    requires 1 <= cut && Count(first, cut) <= 0
    ensures Faults(ToyWire(first), ToySession(early, n, cut)) == []
  {
    ToyIsLinked(first, early, n, cut);
    CleanIffLinked(ToyWire(first), ToySession(early, n, cut));
  }

  lemma ToyIsLinked(first: Int64, early: char, n: nat, cut: nat)
    requires 1 <= cut && Count(first, cut) <= 0
    ensures Linked(ToyWire(first), ToySession(early, n, cut))
  {
    var wire, ms := ToyWire(first), ToySession(early, n, cut);
    forall i | 0 < i < |ms| ensures FollowsAt(wire, ms, i) {
      ToyFollows(first, if i < cut then early else 'a', if i - 1 < cut then early else 'a', i, cut);
    }
  }

  lemma ToyFollows(first: Int64, letter: char, before: char, i: nat, cut: nat)
    requires i > 0 && (i == cut || letter == before)
    requires 1 <= cut && Count(first, cut) <= 0
    ensures Follows(ToyWire(first), Toy(before, i - 1), Toy(letter, i))
  {
    ToyHeader(first, letter, i);
    ToyHeader(first, before, i - 1);
    assert ToyWire(first).hash(Toy(before, i - 1)) == Toy(before, i - 1);
  }

  lemma Forgery(first: Int64, n: nat, cut: nat)
    requires 1 <= cut <= n && Count(first, cut) <= 0
    ensures !Commits(first, n)
  {
    var wire := ToyWire(first);
    var ms, ns := ToySession('a', n, cut), ToySession('b', n, cut);
    ToyIsClean(first, 'a', n, cut);
    ToyIsClean(first, 'b', n, cut);
    assert forall a: Raw :: wire.hash(a) == a;
    ToyHeader(first, 'a', 0);
    ToyHeader(first, 'b', 0);
    assert ms[0] == Toy('a', 0) && ns[0] == Toy('b', 0) && ms[0][0] != ns[0][0];
    assert ms[n] == Toy('a', n) == ns[n];
  }

  // ---------------------------------------------------------------- deletion, reordering and replay

  /** The deliveries of `ms` in the order of the indices `ix`. */
  function Deliveries(ms: seq<Raw>, ix: seq<nat>): (ds: seq<Raw>)
    requires forall j :: 0 <= j < |ix| ==> ix[j] < |ms|
    ensures |ds| == |ix| && forall j :: 0 <= j < |ix| ==> ds[j] == ms[ix[j]]
  {
    seq(|ix|, j requires 0 <= j < |ix| => ms[ix[j]])
  }

  /** How often a delivery is not the direct successor of the one before it. */
  function Jumps(ix: seq<nat>): nat {
    if |ix| <= 1 then 0
    else
      var n := |ix| - 1;
      Jumps(ix[..n]) + if ix[n] == ix[n - 1] + 1 then 0 else 1
  }

  /** `k` times one fault of each kind. */
  function FaultPairs(k: nat): (fs: seq<Fault>)
    ensures |fs| == 2 * k
  {
    if k == 0 then [] else FaultPairs(k - 1) + [SeqMismatch, HashMismatch]
  }

  /** A delivery starts with the login, which does not come again. */
  ghost predicate Schedule(ix: seq<nat>, n: nat) {
    && |ix| > 0 && ix[0] == 0
    && (forall j :: 0 <= j < |ix| ==> ix[j] < n)
    && (forall j :: 0 < j < |ix| ==> ix[j] > 0)
  }

  /** After message `last` of an honest session, message `next` is accepted when it is the successor, else doubly flagged. */
  lemma SuccessorOrBothFaults(wire: Wire, ms: seq<Raw>, first: int, last: nat, next: nat)
    requires Injective(wire) && Honest(wire, ms, first) && InRange(first, |ms|)
    requires last < |ms| && 0 < next < |ms|
    ensures Verify(Advance(wire, ms[last]), wire.header(ms[next])) ==
            if next == last + 1 then [] else [SeqMismatch, HashMismatch]
  {
    assert InPlace(wire, ms, first, last) && InPlace(wire, ms, first, next) && InPlace(wire, ms, first, next - 1);
  }

  /**
   An honest session reaches the server with messages missing, repeated or out of order.  Each place where
   the order of the session is left raises exactly one fault of each kind, and nothing else raises any:
   the next message in order is accepted again.
   */
  lemma {:induction false} JumpsAreCounted(wire: Wire, ms: seq<Raw>, first: int, ix: seq<nat>)
    requires Injective(wire) && Honest(wire, ms, first) && InRange(first, |ms|)
    requires Schedule(ix, |ms|)
    ensures Faults(wire, Deliveries(ms, ix)) == FaultPairs(Jumps(ix))
  {
    if |ix| == 1 {
      LoginAloneIsClean(wire, ms, ix);
    } else {
      SchedulePrefix(ix, |ms|);
      JumpsAreCounted(wire, ms, first, ix[..|ix| - 1]);
      LastDeliveryFaults(wire, ms, first, ix);
      LastJump(ix);
    }
  }

  lemma LoginAloneIsClean(wire: Wire, ms: seq<Raw>, ix: seq<nat>)
    requires |ix| == 1 && ix[0] < |ms|
    ensures Faults(wire, Deliveries(ms, ix)) == FaultPairs(Jumps(ix))
  {
  }

  /** The faults at the last delivery: one of each kind when it leaves the order. */
  function AtJump(jump: bool): seq<Fault> {
    if jump then [SeqMismatch, HashMismatch] else []
  }

  lemma LastDeliveryFaults(wire: Wire, ms: seq<Raw>, first: int, ix: seq<nat>)
    requires Injective(wire) && Honest(wire, ms, first) && InRange(first, |ms|)
    requires Schedule(ix, |ms|) && |ix| > 1
    ensures
      var n := |ix| - 1;
      Faults(wire, Deliveries(ms, ix)) == Faults(wire, Deliveries(ms, ix[..n])) + AtJump(ix[n] != ix[n - 1] + 1)
  {
    var n := |ix| - 1;
    LastDelivery(wire, ms, ix);
    SuccessorOrBothFaults(wire, ms, first, ix[n - 1], ix[n]);
  }

  lemma LastJump(ix: seq<nat>)
    requires |ix| > 1
    ensures
      var n := |ix| - 1;
      FaultPairs(Jumps(ix)) == FaultPairs(Jumps(ix[..n])) + AtJump(ix[n] != ix[n - 1] + 1)
  {
    var n := |ix| - 1;
    var k, jump := Jumps(ix[..n]), ix[n] != ix[n - 1] + 1;
    assert Jumps(ix) == if jump then k + 1 else k;
    PairAtJump(k, jump);
  }

  lemma PairAtJump(k: nat, jump: bool)
    ensures FaultPairs(if jump then k + 1 else k) == FaultPairs(k) + AtJump(jump)
  {
    if !jump {
      assert FaultPairs(k) + [] == FaultPairs(k);
    }
  }

  lemma SchedulePrefix(ix: seq<nat>, n: nat)
    requires Schedule(ix, n) && |ix| > 1
    ensures Schedule(ix[..|ix| - 1], n)
  {
  }

  lemma LastDelivery(wire: Wire, ms: seq<Raw>, ix: seq<nat>)
    requires |ix| > 1 && forall j :: 0 <= j < |ix| ==> ix[j] < |ms|
    ensures
      var n := |ix| - 1;
      Faults(wire, Deliveries(ms, ix)) ==
      Faults(wire, Deliveries(ms, ix[..n])) + Verify(Advance(wire, ms[ix[n - 1]]), wire.header(ms[ix[n]]))
  {
    var n := |ix| - 1;
    assert Deliveries(ms, ix)[..n] == Deliveries(ms, ix[..n]);
  }

  /** What was delivered goes unflagged exactly when it is the session up to some point: only a lost tail is silent. */
  lemma {:induction false} OnlyLostTailIsSilent(wire: Wire, ms: seq<Raw>, first: int, ix: seq<nat>)
    requires Injective(wire) && Honest(wire, ms, first) && InRange(first, |ms|)
    requires Schedule(ix, |ms|)
    ensures Faults(wire, Deliveries(ms, ix)) == [] <==> Deliveries(ms, ix) <= ms
  {
    JumpsAreCounted(wire, ms, first, ix);
    NoJumpsIffCounting(ix);
    if Jumps(ix) == 0 {
      assert ix[|ix| - 1] == |ix| - 1;
    }
    if Deliveries(ms, ix) <= ms {
      forall j | 0 <= j < |ix| ensures ix[j] == j {
        assert InPlace(wire, ms, first, ix[j]) && InPlace(wire, ms, first, j);
        assert Deliveries(ms, ix)[j] == ms[j];
      }
    }
  }

  lemma {:induction false} NoJumpsIffCounting(ix: seq<nat>)
    requires |ix| > 0 && ix[0] == 0
    ensures Jumps(ix) == 0 <==> forall j :: 0 <= j < |ix| ==> ix[j] == j
  {
    var n := |ix| - 1;
    if n == 0 {
    } else {
      NoJumpsIffCounting(ix[..n]);
      assert forall j :: 0 <= j < n ==> ix[..n][j] == ix[j];
      if forall j :: 0 <= j < n ==> ix[j] == j {
        assert ix[n - 1] == n - 1;
      }
    }
  }
}
