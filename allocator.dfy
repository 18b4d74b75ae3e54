/** The bump allocator of `allocator.c`: an arena is a block of `cap` bytes
    of which the first `len` are handed out; `Alloc` bumps `len`, `Free`
    resets it to zero. An allocator of type `ALLOCATOR_NONE` hands out null
    and keeps no state. The backing memory (`VirtualAlloc`) is not modelled:
    an allocation is identified by its byte offset into the arena. */
module Arena {
  import opened Common

  datatype AllocatorType = AllocatorNone | AllocatorArena

  /** The bookkeeping fields of `struct Allocator` (its `data` pointer is the
      base that every offset is relative to). */
  datatype ArenaState = ArenaState(kind: AllocatorType, len: u64, cap: u64)

  /** The pointer `Alloc` returns: null, or `data + offset`. */
  datatype Allocation = Null | Block(offset: u64)

  /** The arena invariant: never more handed out than reserved. */
  predicate WithinCapacity(s: ArenaState)
  {
    s.kind == AllocatorArena ==> s.len <= s.cap
  }

  /** `Alloc(self, count)` as the authors intended: an arena aborts when
      `len + count` exceeds `cap`, otherwise returns `data + len` and bumps
      `len` by `count`; `ALLOCATOR_NONE` returns null and changes nothing.
      (The source compares a 64-bit sum that can wrap; see `AllocStepAsWritten`.) */
  function AllocStep(s: ArenaState, count: u64): (r: Result<(Allocation, ArenaState)>)
    ensures s.kind == AllocatorNone ==> r == Ok((Null, s))
    ensures r.Ok? ==> r.value.1.kind == s.kind && r.value.1.cap == s.cap && s.len <= r.value.1.len
    ensures r.Ok? ==> WithinCapacity(r.value.1)
  {
    match s.kind
    case AllocatorNone => Ok((Null, s))
    case AllocatorArena =>
      if s.len + count > s.cap then Fatal("Arena full")
      else Ok((Block(s.len), s.(len := s.len + count)))
  }

  /** `Alloc` exactly as written: `self->len + count` is a `uint64_t` sum, so it
      wraps modulo 2^64 before it is compared with `cap`, and the new `len`
      is that wrapped sum. */
  function AllocStepAsWritten(s: ArenaState, count: u64): (r: Result<(Allocation, ArenaState)>)
    ensures r.Ok? ==> r.value.1.kind == s.kind && r.value.1.cap == s.cap && WithinCapacity(r.value.1)
    ensures s.kind == AllocatorArena && r.Ok? ==> (s.len <= r.value.1.len <==> s.len + count < U64_MODULUS)
  {
    match s.kind
    case AllocatorNone => Ok((Null, s))
    case AllocatorArena =>
      var sum := (s.len + count) % U64_MODULUS;
      if sum > s.cap then Fatal("Arena full")
      else Ok((Block(s.len), s.(len := sum)))
  }

  /** `Free(self)`: an arena forgets everything it handed out. */
  function FreeStep(s: ArenaState): (r: ArenaState)
    ensures r.kind == s.kind && r.cap == s.cap && r.len <= s.len && WithinCapacity(r)
  {
    match s.kind
    case AllocatorNone => s
    case AllocatorArena => s.(len := 0)
  }

  /** `NewArena(size)`: an empty arena of `size` bytes. */
  function NewArena(size: u64): (r: ArenaState)
    ensures r.kind == AllocatorArena && r.len == 0 && WithinCapacity(r)
    ensures forall count: u64 :: AllocStep(r, count).Ok? <==> count <= size
  {
    ArenaState(AllocatorArena, 0, size)
  }

  /** A successful arena allocation returns the old `len` as its offset, grows
      `len` by exactly `count` and keeps the arena within its capacity; an
      allocation aborts exactly when it does not fit. */
  lemma AllocBumps(s: ArenaState, count: u64)
    requires s.kind == AllocatorArena && WithinCapacity(s)
    ensures AllocStep(s, count).Ok? <==> s.len + count <= s.cap
    ensures AllocStep(s, count).Ok? ==>
      var (a, t) := AllocStep(s, count).value;
      a == Block(s.len) && t.len == s.len + count && t.cap == s.cap && WithinCapacity(t)
  {
  }

  /** With `ALLOCATOR_NONE`, `Alloc` returns null and `Free` is a no-op. */
  lemma NoneAllocatorIsInert(s: ArenaState, count: u64)
    requires s.kind == AllocatorNone
    ensures AllocStep(s, count) == Ok((Null, s)) && FreeStep(s) == s
  {
  }

  /** `Free` on an arena sets `len` to 0 and leaves type and capacity alone. */
  lemma FreeResets(s: ArenaState)
    requires s.kind == AllocatorArena
    ensures FreeStep(s) == ArenaState(AllocatorArena, 0, s.cap) && WithinCapacity(FreeStep(s))
  {
  }

  /** A run of allocations, in order; aborts at the first that does not fit.
      On success: the offsets handed out and the final state. */
  function AllocAll(s: ArenaState, counts: seq<u64>): (r: Result<(seq<u64>, ArenaState)>)
    ensures r.Ok? ==> |r.value.0| == |counts|
    decreases |counts|
  {
    if counts == [] then Ok(([], s))
    else
      match AllocStep(s, counts[0])
      case Fatal(why) => Fatal(why)
      case Ok((a, t)) =>
        match AllocAll(t, counts[1..])
        case Fatal(why) => Fatal(why)
        case Ok((rest, u)) => Ok(([if a.Block? then a.offset else 0] + rest, u))
  }

  function Sum(xs: seq<u64>): nat
  {
    if xs == [] then 0 else xs[0] + Sum(xs[1..])
  }

  /** Successive successful arena allocations hand out the ranges
      `[offset, offset + count)` back to back: the first starts at the old
      `len`, each starts where the previous one ended (so the ranges are
      disjoint and increasing), and the final `len` is the old `len` plus
      the total requested, still within `cap`. */
  lemma {:induction false} AllocAllContiguous(s: ArenaState, counts: seq<u64>)
    requires s.kind == AllocatorArena && WithinCapacity(s)
    requires AllocAll(s, counts).Ok?
    ensures var (offsets, t) := AllocAll(s, counts).value;
      && |offsets| == |counts|
      && (forall i :: 0 <= i < |offsets| ==> offsets[i] == s.len + Sum(counts[..i]))
      && t.kind == AllocatorArena && t.cap == s.cap
      && t.len == s.len + Sum(counts) && WithinCapacity(t)
    decreases |counts|
  {
    if counts != [] {
      var (a, t) := AllocStep(s, counts[0]).value;
      AllocAllContiguous(t, counts[1..]);
      var (offsets, u) := AllocAll(s, counts).value;
      var (rest, _) := AllocAll(t, counts[1..]).value;
      assert offsets == [s.len] + rest;
      forall i | 0 <= i < |offsets|
        ensures offsets[i] == s.len + Sum(counts[..i])
      {
        if i > 0 {
          assert counts[..i] == [counts[0]] + counts[1..][..i - 1];
        } else {
          assert counts[..i] == [];
        }
      }
    }
  }

  /** Two allocations of one successful run never overlap: the range of an
      earlier one ends at or before the start of a later one. */
  lemma AllocAllDisjoint(s: ArenaState, counts: seq<u64>, i: nat, j: nat)
    requires s.kind == AllocatorArena && WithinCapacity(s)
    requires AllocAll(s, counts).Ok?
    requires i < j < |counts|
    ensures AllocAll(s, counts).value.0[i] as int + counts[i] <= AllocAll(s, counts).value.0[j]
  {
    AllocAllContiguous(s, counts);
    SumPrefixGrows(counts, i + 1, j);
    assert counts[..i + 1] == counts[..i] + [counts[i]];
    SumAppend(counts[..i], counts[i]);
  }

  lemma {:induction false} SumAppend(xs: seq<u64>, x: u64)
    ensures Sum(xs + [x]) == Sum(xs) + x
    decreases |xs|
  {
    if xs != [] {
      assert (xs + [x])[1..] == xs[1..] + [x];
      SumAppend(xs[1..], x);
    }
  }

  lemma {:induction false} SumPrefixGrows(xs: seq<u64>, i: nat, j: nat)
    requires i <= j <= |xs|
    ensures Sum(xs[..i]) <= Sum(xs[..j])
    decreases j - i
  {
    if i < j {
      SumPrefixGrows(xs, i, j - 1);
      assert xs[..j] == xs[..j - 1] + [xs[j - 1]];
      SumAppend(xs[..j - 1], xs[j - 1]);
    }
  }

  /** The guard as written lets an oversized request through: with 1 byte in
      use, asking for 2^64 - 1 more bytes wraps the sum to 0, so the arena
      hands out offset 1 and its `len` drops back to 0, whereas the intended
      allocator aborts. */
  lemma AsWrittenGuardWraps()
    ensures var s := ArenaState(AllocatorArena, 1, 16);
      && AllocStepAsWritten(s, U64_MAX) == Ok((Block(1), s.(len := 0)))
      && AllocStep(s, U64_MAX).Fatal?
  {
  }

  /** Whenever the 64-bit sum does not wrap, the code as written and the
      intended allocator agree. */
  lemma AsWrittenAgreesWithoutWrap(s: ArenaState, count: u64)
    requires s.len + count < U64_MODULUS
    ensures AllocStepAsWritten(s, count) == AllocStep(s, count)
  {
  }

  /** The allocator object: `Alloc` and `Free` update `len` in place. */
  class Allocator {
    var kind: AllocatorType
    var len: u64
    var cap: u64

    /** The fields as an `ArenaState` value. */
    function State(): ArenaState
      reads this
    {
      ArenaState(kind, len, cap)
    }

    /** A zero-initialised `Allocator` (such as a `static` one before
        `NewArena` is assigned to it) is of type `ALLOCATOR_NONE`. */
    constructor Zeroed()
      ensures State() == ArenaState(AllocatorNone, 0, 0)
    {
      kind, len, cap := AllocatorNone, 0, 0;
    }

    /** `NewArena(size)`. */
    constructor FromNewArena(size: u64)
      ensures State() == NewArena(size) && len == 0 && cap == size && WithinCapacity(State())
    {
      kind, len, cap := AllocatorArena, 0, size;
    }

    method Alloc(count: u64) returns (r: Result<Allocation>)
      modifies this
      ensures match AllocStep(old(State()), count)
        case Fatal(why) => r == Fatal(why)
        case Ok((a, t)) => r == Ok(a) && State() == t
      ensures WithinCapacity(old(State())) && r.Ok? ==> WithinCapacity(State())
    {
      match kind
      case AllocatorNone =>
        r := Ok(Null);
      case AllocatorArena =>
        if len + count > cap {
          r := Fatal("Arena full");
          return;
        }
        r := Ok(Block(len));
        len := len + count;
    }

    method Free()
      modifies this
      ensures State() == FreeStep(old(State()))
      ensures kind == old(kind) && cap == old(cap)
      ensures kind == AllocatorArena ==> len == 0
      ensures kind == AllocatorNone ==> len == old(len)
    {
      match kind
      case AllocatorNone =>
        return;
      case AllocatorArena =>
        len := 0;
    }
  }
}
