/**
 Over-aligned memory for completion handlers: a larger raw block is taken, the user's block is placed at an aligned
 address inside it, and the distance is hidden in the bytes behind the user's block so that the raw block can be
 given back.
 */
module AlignedAllocation {
  import opened Basics

  const WORD: nat := 8   // bytes of a pointer difference

  // ---------------------------------------------------------------- a number in memory

  /** The `n` low bytes of a number, least significant first. */
  function Encode(x: nat, n: nat): (bytes: seq<Byte>)
    ensures |bytes| == n
  {
    if n == 0 then [] else [x % 256] + Encode(x / 256, n - 1)
  }

  function Decode(bytes: seq<Byte>): nat {
    if bytes == [] then 0 else bytes[0] + 256 * Decode(bytes[1..])
  }

  function Capacity(n: nat): nat {
    if n == 0 then 1 else 256 * Capacity(n - 1)
  }

  lemma {:induction false} DecodeEncode(x: nat, n: nat)
    requires x < Capacity(n)
    ensures Decode(Encode(x, n)) == x
  {
    if n == 0 {
    } else {
      DecodeEncode(x / 256, n - 1);
      assert Encode(x, n)[1..] == Encode(x / 256, n - 1);
    }
  }

  // ---------------------------------------------------------------- alignment

  predicate Aligned(p: nat, align: nat) {
    align > 0 && p % align == 0
  }

  /** The contract of `std::align`: the first aligned address, when `size` bytes fit behind it. */
  method Align(align: nat, size: nat, p: nat, space: nat) returns (q: Option<nat>)
    requires align > 0
    ensures q.Some? ==> Aligned(q.value, align) && p <= q.value < p + align && q.value - p + size <= space
    ensures space >= size + align - 1 ==> q.Some?
  {
    var up := (p + align - 1) / align * align;
    AlignUpIsFirst(align, p);
    q := if up - p + size <= space then Some(up) else None;
  }

  lemma AlignUpIsFirst(align: nat, p: nat)
    requires align > 0
    ensures
      var up := (p + align - 1) / align * align;
      p <= up < p + align && Aligned(up, align)
  {
    var k := (p + align - 1) / align;
    assert p + align - 1 == k * align + (p + align - 1) % align;
    MultipleHasNoRest(k, align);
  }

  lemma MultipleHasNoRest(k: nat, align: nat)
    requires align > 0
    ensures k * align % align == 0
  {
    var q, r := k * align / align, k * align % align;
    assert k * align == q * align + r;
    assert (k - q) * align == r;
    NoSmallMultiple(k - q, align);
  }

  lemma NoSmallMultiple(d: int, align: nat)
    requires align > 0 && 0 <= d * align < align
    ensures d * align == 0
  {
    if d > 0 {
      Grows(d, align);
    } else if d < 0 {
      Grows(-d, align);
    }
  }

  lemma Grows(k: nat, align: nat)
    requires k > 0
    ensures k * align >= align
  {
    assert k * align == align + (k - 1) * align;
  }

  // ---------------------------------------------------------------- blocks

  /** A live block: where its raw block starts, what was asked for, and the address given to the user. */
  datatype Block = Block(base: nat, size: nat, align: nat, user: nat)

  function RawLength(size: nat, align: nat): nat
    requires align > 0
  {
    size + align - 1 + WORD
  }

  predicate Fits(b: Block, limit: nat) {
    && b.align > 0 && b.align <= Capacity(WORD)
    && 0 < b.base <= b.user < b.base + b.align
    && Aligned(b.user, b.align)
    && b.base + RawLength(b.size, b.align) <= limit
  }

  predicate Apart(a: Block, b: Block)
    requires a.align > 0 && b.align > 0
  {
    a.base + RawLength(a.size, a.align) <= b.base || b.base + RawLength(b.size, b.align) <= a.base
  }

  /** The live blocks are well formed and apart from one another. */
  ghost predicate Laid(live: map<nat, Block>, limit: nat) {
    && (forall p :: p in live ==> live[p].user == p && Fits(live[p], limit))
    && (forall p, q :: p in live && q in live && p != q ==> Apart(live[p], live[q]))
  }

  lemma LaidAfterRelease(live: map<nat, Block>, limit: nat, p: nat)
    requires Laid(live, limit)
    ensures Laid(live - {p}, limit) && (live - {p}).Values <= live.Values && 0 !in live
  {
    var rest := live - {p};
    forall b | b in rest.Values ensures b in live.Values {
      var q :| q in rest && rest[q] == b;
      assert q in live && live[q] == b;
    }
  }

  lemma LaidAfterAllocation(live: map<nat, Block>, limit: nat, b: Block)
    requires Laid(live, limit) && Fits(b, limit)
    requires forall q :: q in live ==> Apart(live[q], b)
    ensures b.user !in live && Laid(live[b.user := b], limit)
    ensures live[b.user := b].Values <= live.Values + {b}
  {
    forall q | q in live ensures q != b.user && Apart(b, live[q]) {
      assert Apart(live[q], b);
    }
  }

  /** The users' bytes of these blocks lie below `limit` and outside the range. */
  ghost predicate UsersOutside(blocks: map<nat, Block>, limit: nat, from: nat, to: nat) {
    forall q :: q in blocks ==> q + blocks[q].size <= limit && (q + blocks[q].size <= from || to <= q)
  }

  /** The hidden words of these blocks lie outside the range. */
  ghost predicate WordsOutside(blocks: set<Block>, from: nat, to: nat) {
    forall b :: b in blocks ==> to <= b.user + b.size || b.user + b.size + WORD <= from
  }

  lemma WordIsOutside(live: map<nat, Block>, limit: nat, b: Block)
    requires Laid(live, limit) && Fits(b, limit)
    requires forall q :: q in live ==> Apart(live[q], b)
    ensures UsersOutside(live, limit, b.user + b.size, b.user + b.size + WORD)
  {
  }

  lemma OwnBytesAreOutside(live: map<nat, Block>, limit: nat, p: nat, i: nat, n: nat)
    requires Laid(live, limit) && p in live && i + n <= live[p].size
    ensures UsersOutside(live - {p}, limit, p + i, p + i + n)
  {
    forall q | q in live && q != p
      ensures q + live[q].size <= limit && (q + live[q].size <= p + i || p + i + n <= q)
    {
      assert Apart(live[p], live[q]);
    }
  }

  /** Every byte outside the range is the same. */
  ghost predicate SameOutside(before: seq<Byte>, after: seq<Byte>, from: nat, to: nat) {
    |after| == |before| && forall i :: 0 <= i < |before| && !(from <= i < to) ==> after[i] == before[i]
  }

  /** The users' bytes of these blocks are the same. */
  ghost predicate SameUsers(before: seq<Byte>, after: seq<Byte>, blocks: map<nat, Block>) {
    && |after| == |before|
    && forall q :: q in blocks && q + blocks[q].size <= |before| ==>
         after[q..q + blocks[q].size] == before[q..q + blocks[q].size]
  }

  lemma OutsideIsSame(before: seq<Byte>, after: seq<Byte>, blocks: map<nat, Block>, from: nat, to: nat)
    requires UsersOutside(blocks, |before|, from, to) && SameOutside(before, after, from, to)
    ensures SameUsers(before, after, blocks)
  {
  }

  class Memory {
    const bytes: array<Byte>           // addressed from 0; address 0 is the null pointer
    ghost var live: map<nat, Block>    // by the address given to the user

    ghost predicate Valid()
      reads this, bytes
    {
      bytes.Length <= Capacity(WORD) && Laid(live, bytes.Length) && AllHidden(live.Values)
    }

    ghost predicate AllHidden(blocks: set<Block>)
      reads bytes
    {
      forall b :: b in blocks ==> Hidden(b)
    }

    /** The word behind the user's block holds the distance from the raw block. */
    ghost predicate Hidden(b: Block)
      reads bytes
    {
      Fits(b, bytes.Length) && Decode(bytes[b.user + b.size..b.user + b.size + WORD]) == b.user - b.base
    }

    constructor (limit: nat)
      requires limit <= Capacity(WORD)
      ensures Valid() && live == map[] && fresh(bytes) && bytes.Length == limit
    {
      bytes := new Byte[limit];
      live := map[];
    }

    /**
     Allocates in the raw block that the underlying allocator found at `base`.  The size of the block is a sum taken
     in 64 bits; when that wraps around, the block is too small to align in, and the result is `None`.
     */
    method Allocate(size: nat, align: nat, base: nat) returns (p: Option<nat>)
      requires Valid() && size < Capacity(WORD) && 0 < align < Capacity(WORD)
      requires size + align - 1 < Capacity(WORD) ==>
        && 0 < base && base + RawLength(size, align) <= bytes.Length
        && forall q :: q in live ==> Apart(live[q], Block(base, size, align, base))
      modifies this`live, bytes
      ensures Valid() && SameUsers(old(bytes[..]), bytes[..], old(live))
      ensures p.Some? <==> size + align - 1 < Capacity(WORD)
      ensures p.None? ==> live == old(live) && bytes[..] == old(bytes[..])
      ensures p.Some? ==>
        && p.value !in old(live) && Aligned(p.value, align)
        && base <= p.value && p.value + size + 8 <= base + (size + align - 1 + 8)
        && live == old(live)[p.value := Block(base, size, align, p.value)]
        && SameOutside(old(bytes[..]), bytes[..], p.value + size, p.value + size + 8)
    {
      var exact := size + align - 1;
      var space := if exact < Capacity(WORD) then exact else exact - Capacity(WORD);
      p := Align(align, size, base, space);
      if p.Some? {
        ghost var b := Block(base, size, align, p.value);
        assert forall q :: q in live ==> Apart(live[q], b) by {
          assert forall q :: q in live ==> Apart(live[q], Block(base, size, align, base));
        }
        Place(p.value, size, p.value - base, b);
      }
    }

    /** Makes block `b` live, with its distance hidden behind the user's bytes. */
    method Place(user: nat, size: nat, off: nat, ghost b: Block)
      requires Valid() && Fits(b, bytes.Length) && b.user == user && b.size == size && off == user - b.base
      requires forall q :: q in live ==> Apart(live[q], b)
      modifies this`live, bytes
      ensures Valid() && user !in old(live) && live == old(live)[user := b]
      ensures SameOutside(old(bytes[..]), bytes[..], user + size, user + size + WORD)
      ensures SameUsers(old(bytes[..]), bytes[..], old(live))
    {
      LaidAfterAllocation(live, bytes.Length, b);
      WordIsOutside(live, bytes.Length, b);
      HideDistance(user, size, off, b);
      OutsideIsSame(old(bytes[..]), bytes[..], live, user + size, user + size + WORD);
      assert AllHidden(live.Values + {b});
      live := live[user := b];
    }

    /** Writes the distance behind the user's block. */
    method HideDistance(user: nat, size: nat, off: nat, ghost b: Block)
      requires Valid() && Fits(b, bytes.Length) && b.user == user && b.size == size && off == user - b.base
      requires forall q :: q in live ==> Apart(live[q], b)
      modifies bytes
      ensures Hidden(b) && AllHidden(live.Values)
      ensures SameOutside(old(bytes[..]), bytes[..], user + size, user + size + WORD)
    {
      forall x | x in live.Values
        ensures user + size + WORD <= x.user + x.size || x.user + x.size + WORD <= user + size
      {
        assert Apart(live[x.user], b);
      }
      WriteBytes(user + size, Encode(off, WORD), live.Values);
      DecodeEncode(off, WORD);
    }

    /** Writes bytes that are outside every hidden word of `blocks`. */
    method WriteBytes(at: nat, data: seq<Byte>, ghost blocks: set<Block>)
      requires at + |data| <= bytes.Length
      requires AllHidden(blocks)
      requires WordsOutside(blocks, at, at + |data|)
      modifies bytes
      ensures bytes[at..at + |data|] == data
      ensures SameOutside(old(bytes[..]), bytes[..], at, at + |data|)
      ensures AllHidden(blocks)
    {
      forall i | 0 <= i < |data| {
        bytes[at + i] := data[i];
      }
      forall b | b in blocks ensures Hidden(b) {
        assert bytes[b.user + b.size..b.user + b.size + WORD] == old(bytes[b.user + b.size..b.user + b.size + WORD]);
      }
    }

    /** The user writes to the bytes it was given. */
    method UserWrite(p: nat, i: nat, data: seq<Byte>)
      requires Valid() && p in live && i + |data| <= live[p].size
      modifies bytes
      ensures Valid() && live == old(live)
      ensures bytes[p + i..p + i + |data|] == data
      ensures SameOutside(old(bytes[..]), bytes[..], p + i, p + i + |data|)
      ensures SameUsers(old(bytes[..]), bytes[..], live - {p})
    {
      OwnBytesAreOutside(live, bytes.Length, p, i, |data|);
      WriteOwnBytes(p, p + i, data);
      OutsideIsSame(old(bytes[..]), bytes[..], live - {p}, p + i, p + i + |data|);
    }

    method WriteOwnBytes(p: nat, at: nat, data: seq<Byte>)
      requires Laid(live, bytes.Length) && AllHidden(live.Values) && p in live
      requires p <= at && at + |data| <= p + live[p].size
      modifies bytes
      ensures AllHidden(live.Values) && at + |data| <= bytes.Length
      ensures bytes[at..at + |data|] == data
      ensures SameOutside(old(bytes[..]), bytes[..], at, at + |data|)
    {
      OwnBytesAreApart(p, at - p, |data|);
      WriteBytes(at, data, live.Values);
    }

    /** A user's own bytes are outside every hidden word. */
    lemma OwnBytesAreApart(p: nat, i: nat, n: nat)
      requires Laid(live, bytes.Length) && p in live && i + n <= live[p].size
      ensures p + i + n <= bytes.Length
      ensures WordsOutside(live.Values, p + i, p + i + n)
    {
      forall b | b in live.Values
        ensures p + i + n <= b.user + b.size || b.user + b.size + WORD <= p + i
      {
        assert b.user != p ==> Apart(live[p], live[b.user]);
      }
    }

    lemma DistanceAt(p: nat)
      requires Laid(live, bytes.Length) && AllHidden(live.Values) && p in live
      ensures p + live[p].size + WORD <= bytes.Length
      ensures Decode(bytes[p + live[p].size..p + live[p].size + WORD]) == p - live[p].base
    {
      assert live[p] in live.Values && Hidden(live[p]);
    }

    /**
     Gives a block back: whatever users wrote and whatever else was allocated and released since, the underlying
     allocator gets the raw block it handed out, start and length.  A null pointer is ignored.
     */
    method Deallocate(p: nat, size: nat, align: nat) returns (raw: Option<(nat, nat)>)
      requires Valid()
      requires p != 0 ==> p in live && live[p].size == size && live[p].align == align
      modifies this`live
      ensures Valid() && live == old(live) - {p}
      ensures raw == if p == 0 then None else Some((old(live)[p].base, size + align - 1 + 8))
    {
      LaidAfterRelease(live, bytes.Length, p);
      if p == 0 {
        assert live - {p} == live;
        return None;
      }
      var off := ReadDistance(p, p + size);
      raw := Some((p - off, size + align - 1 + WORD));
      live := live - {p};
    }

    method ReadDistance(p: nat, at: nat) returns (off: nat)
      requires Laid(live, bytes.Length) && AllHidden(live.Values) && p in live && at == p + live[p].size
      ensures off == p - live[p].base
    {
      DistanceAt(p);
      off := Decode(bytes[at..at + WORD]);
    }
  }
}
