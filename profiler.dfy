/** The nested-region profiler of `profiler.cpp`. A table of 64 measurement
    slots, indexed by a small per-call-site id, and a stack (`queue`) of the
    ids of the regions currently open. Entering a region charges the time
    since the enclosing region's checkpoint to that region; leaving it
    charges the region's own time and hands its duration to the parent's
    inclusive total. Timestamps (`ReadOSTimer`) are parameters here, and the
    textual summary printed by `End` is not modelled. */
module Profiler {
  import opened Common
  import opened Containers

  /** `FixedArray<Measurement, 64>` and `FixedArray<u64, 64>`. */
  const SLOTS: nat := 64

  /** `Profiler::Measurement`; `name` is the source's `label`. The 64-bit
      counters are unbounded here. */
  datatype Measurement = Measurement(
    name: string, file: string, line: int,
    iterations: nat,
    from: nat, timeEx: nat, timeInc: nat,
    bytesProcessed: nat)

  /** A zero-initialised measurement slot. */
  const EMPTY_SLOT: Measurement := Measurement("", "", 0, 0, 0, 0, 0, 0)

  /** What the profiler's operations read and write: the slot table, the
      stack of open region ids (bottom first) and the `ended` flag. */
  datatype ProfilerState = ProfilerState(slots: seq<Measurement>, stack: seq<u64>, ended: bool)

  /** The table has 64 slots, the stack holds at most 64 ids, and every id on
      the stack names a slot. */
  predicate WellFormed(s: ProfilerState)
  {
    && |s.slots| == SLOTS
    && |s.stack| <= SLOTS
    && (forall k :: 0 <= k < |s.stack| ==> s.stack[k] < SLOTS)
  }

  /** No slot's checkpoint lies after `clock`: reading a timer that does not
      run backwards never makes `now - from` negative. */
  predicate CheckpointsBefore(s: ProfilerState, clock: nat)
  {
    forall i :: 0 <= i < |s.slots| ==> s.slots[i].from <= clock
  }

  /** In every slot the exclusive time is at most the inclusive time. */
  predicate ExclusiveWithinInclusive(s: ProfilerState)
  {
    forall i :: 0 <= i < |s.slots| ==> s.slots[i].timeEx <= s.slots[i].timeInc
  }

  function Top(s: ProfilerState): u64
    requires |s.stack| > 0
  {
    s.stack[|s.stack| - 1]
  }

  /** Adds the time since the slot's checkpoint to both of its totals
      (the checkpoint itself is left where it was). */
  function Charge(m: Measurement, now: nat): Measurement
    requires m.from <= now
  {
    m.(timeEx := m.timeEx + (now - m.from), timeInc := m.timeInc + (now - m.from))
  }

  /** The slots after the region on top of the stack (if any) is charged
      up to `now`. */
  function ChargeTop(s: ProfilerState, now: nat): seq<Measurement>
    requires WellFormed(s) && CheckpointsBefore(s, now)
  {
    if |s.stack| > 0 then s.slots[Top(s) := Charge(s.slots[Top(s)], now)] else s.slots
  }

  /** Slot `m` entered at `now`: new checkpoint and call-site details, `bytes`
      more processed and one more call. */
  function Enter(m: Measurement, regionName: string, file: string, line: int, bytes: u64, now: nat): Measurement
  {
    m.(from := now, name := regionName, file := file, line := line,
       bytesProcessed := m.bytesProcessed + bytes, iterations := m.iterations + 1)
  }

  /** `BeginBlock(id, regionName, file, line, bytesProcessed)` at time `now`. */
  function BeginBlockStep(s: ProfilerState, id: u64, regionName: string, file: string, line: int,
                          bytes: u64, now: nat): (t: ProfilerState)
    requires WellFormed(s) && CheckpointsBefore(s, now)
    ensures WellFormed(t) && CheckpointsBefore(t, now)
  {
    if id >= SLOTS then s
    else
      var charged := ChargeTop(s, now);
      ProfilerState(charged[id := Enter(charged[id], regionName, file, line, bytes, now)],
                    if |s.stack| < SLOTS then s.stack + [id] else s.stack,
                    s.ended)
  }

  /** After a region closed, the parent (the new top of `rest`, if any) gets
      its checkpoint moved to `now` and `now - since` added to its inclusive
      total. */
  function HandBackSince(slots: seq<Measurement>, rest: seq<u64>, since: nat, now: nat): (r: seq<Measurement>)
    requires |slots| == SLOTS && (forall k :: 0 <= k < |rest| ==> rest[k] < SLOTS) && since <= now
    ensures |r| == SLOTS
    ensures forall i :: 0 <= i < SLOTS && (|rest| == 0 || i != rest[|rest| - 1]) ==> r[i] == slots[i]
    ensures |rest| > 0 ==> var p := rest[|rest| - 1];
      r[p] == slots[p].(from := now, timeInc := slots[p].timeInc + (now - since))
  {
    if |rest| == 0 then slots
    else
      var p := rest[|rest| - 1];
      slots[p := slots[p].(from := now, timeInc := slots[p].timeInc + (now - since))]
  }

  /** `EndBlock`'s hand-back as written: the closed region `id`'s span is
      measured from its own checkpoint `from` (read after the parent's
      checkpoint moved, which matters only when `id` is the parent too). */
  function HandBack(slots: seq<Measurement>, rest: seq<u64>, id: u64, now: nat): seq<Measurement>
    requires |slots| == SLOTS && id < SLOTS && (forall k :: 0 <= k < |rest| ==> rest[k] < SLOTS)
    requires slots[id].from <= now
  {
    if |rest| > 0 && rest[|rest| - 1] == id then HandBackSince(slots, rest, now, now)
    else HandBackSince(slots, rest, slots[id].from, now)
  }

  /** `EndBlock()` at time `now`: aborts when no region is open. */
  function EndBlockStep(s: ProfilerState, now: nat): (r: Result<ProfilerState>)
    requires WellFormed(s) && CheckpointsBefore(s, now)
    ensures r.Ok? ==> WellFormed(r.value) && CheckpointsBefore(r.value, now)
  {
    if |s.stack| == 0 then Fatal("Pop on an empty FixedArray")
    else
      var id := Top(s);
      var rest := s.stack[..|s.stack| - 1];
      Ok(ProfilerState(HandBack(s.slots[id := Charge(s.slots[id], now)], rest, id, now), rest, s.ended))
  }

  /** `AddBytes(bytes)`: credited to the region on top of the stack; aborts
      when no region is open. */
  function AddBytesStep(s: ProfilerState, bytes: u64): (r: Result<ProfilerState>)
    requires WellFormed(s)
    ensures r.Ok? ==> WellFormed(r.value) && r.value.stack == s.stack
    ensures r.Ok? ==> forall i :: 0 <= i < SLOTS ==> r.value.slots[i].from == s.slots[i].from
  {
    if |s.stack| == 0 then Fatal("Last on an empty FixedArray")
    else
      var top := Top(s);
      Ok(s.(slots := s.slots[top := s.slots[top].(bytesProcessed := s.slots[top].bytesProcessed + bytes)]))
  }

  /** `End()`: the first call sets `ended` and reports the summary; every later
      call returns at once. The second component says whether it reports. */
  function EndStep(s: ProfilerState): (r: (ProfilerState, bool))
    ensures r.0.ended && r.0.slots == s.slots && r.0.stack == s.stack
    ensures r.1 <==> !s.ended
  {
    if s.ended then (s, false) else (s.(ended := true), true)
  }

  /** `BeginScopeBlock` takes its id as an `i32`, and `BeginBlock` as a `u64`:
      a negative id converts to a value of at least 2^63. */
  function I32ToU64(id: int): u64
    requires -0x8000_0000 <= id < 0x8000_0000
  {
    if id < 0 then id + U64_MODULUS else id
  }

  /** No operation can make a region's exclusive time exceed its inclusive
      time: each adds the same amount to both, or adds to the inclusive
      total only. */
  lemma StepsKeepExclusiveWithinInclusive(s: ProfilerState, id: u64, regionName: string, file: string,
                                          line: int, bytes: u64, now: nat)
    requires WellFormed(s) && CheckpointsBefore(s, now) && ExclusiveWithinInclusive(s)
    ensures ExclusiveWithinInclusive(BeginBlockStep(s, id, regionName, file, line, bytes, now))
    ensures EndBlockStep(s, now).Ok? ==> ExclusiveWithinInclusive(EndBlockStep(s, now).value)
    ensures AddBytesStep(s, bytes).Ok? ==> ExclusiveWithinInclusive(AddBytesStep(s, bytes).value)
  {
  }

  /** An id outside the table leaves the profiler untouched, and `EndBlock`
      and `AddBytes` with no open region abort. */
  lemma MisuseCases(s: ProfilerState, id: u64, regionName: string, file: string, line: int,
                    bytes: u64, now: nat)
    requires WellFormed(s) && CheckpointsBefore(s, now)
    ensures id >= SLOTS ==> BeginBlockStep(s, id, regionName, file, line, bytes, now) == s
    ensures |s.stack| == 0 <==> EndBlockStep(s, now).Fatal?
    ensures |s.stack| == 0 <==> AddBytesStep(s, bytes).Fatal?
  {
  }

  /** Entering region `id` while another is open: the enclosing region is
      charged `now - from` in both totals and keeps its checkpoint; the new
      region's checkpoint is `now`, its byte count grows by `bytes`, its
      call count by exactly one, and `id` goes on the stack. */
  lemma BeginBlockEffect(s: ProfilerState, id: u64, regionName: string, file: string, line: int,
                         bytes: u64, now: nat)
    requires WellFormed(s) && CheckpointsBefore(s, now)
    requires id < SLOTS && |s.stack| < SLOTS
    ensures var t := BeginBlockStep(s, id, regionName, file, line, bytes, now);
      && t.stack == s.stack + [id]
      && t.slots[id].from == now
      && t.slots[id].iterations == s.slots[id].iterations + 1
      && t.slots[id].bytesProcessed == s.slots[id].bytesProcessed + bytes
      && (|s.stack| > 0 && Top(s) != id ==>
            var p := Top(s);
            && t.slots[p].timeEx == s.slots[p].timeEx + (now - s.slots[p].from)
            && t.slots[p].timeInc == s.slots[p].timeInc + (now - s.slots[p].from)
            && t.slots[p].from == s.slots[p].from)
      && (forall i :: 0 <= i < SLOTS && i != id && (|s.stack| == 0 || i != Top(s)) ==>
            t.slots[i] == s.slots[i])
  {
  }

  /** Leaving a region with a parent open: the region is charged `now - from`
      in both totals; the parent's checkpoint moves to `now` and its
      inclusive total (only) grows by the region's last stretch. */
  lemma EndBlockEffect(s: ProfilerState, now: nat)
    requires WellFormed(s) && CheckpointsBefore(s, now)
    requires |s.stack| >= 2 && Top(s) != s.stack[|s.stack| - 2]
    ensures EndBlockStep(s, now).Ok?
    ensures var t := EndBlockStep(s, now).value;
      var id := Top(s);
      var p := s.stack[|s.stack| - 2];
      && t.stack == s.stack[..|s.stack| - 1]
      && t.slots[id] == Charge(s.slots[id], now)
      && t.slots[p].from == now
      && t.slots[p].timeInc == s.slots[p].timeInc + (now - s.slots[id].from)
      && t.slots[p].timeEx == s.slots[p].timeEx
      && (forall i :: 0 <= i < SLOTS && i != id && i != p ==> t.slots[i] == s.slots[i])
  {
  }

  /** Leaving the outermost region: it is charged `now - from` in both
      totals and the stack becomes empty; nothing else changes. */
  lemma EndOutermostEffect(s: ProfilerState, now: nat)
    requires WellFormed(s) && CheckpointsBefore(s, now) && |s.stack| == 1
    ensures EndBlockStep(s, now).Ok?
    ensures var t := EndBlockStep(s, now).value;
      t.stack == [] && t.slots == s.slots[Top(s) := Charge(s.slots[Top(s)], now)]
  {
  }

  /** Checkpoints at or before `t` are at or before any later time. */
  lemma CheckpointsBeforeLater(s: ProfilerState, t: nat, t': nat)
    requires CheckpointsBefore(s, t) && t <= t'
    ensures CheckpointsBefore(s, t')
  {
  }

  /** Region A (slot `a`) opens at `t0` with nothing else open, region B (slot
      `b`) opens at `t1` and closes at `t2`, and A closes at `t3`. Then A's
      inclusive time grows by `t3 - t0`, which is its exclusive growth plus
      B's inclusive growth, and B's exclusive and inclusive time both grow
      by `t2 - t1`. */
  lemma NestedRegionAccounting(s: ProfilerState, a: u64, b: u64, t0: nat, t1: nat, t2: nat, t3: nat)
    requires WellFormed(s) && CheckpointsBefore(s, t0) && |s.stack| == 0
    requires a < SLOTS && b < SLOTS && a != b
    requires t0 <= t1 <= t2 <= t3
    ensures var s1 := BeginBlockStep(s, a, "A", "", 0, 0, t0);
      var s2 := BeginBlockStep(s1, b, "B", "", 0, 0, t1);
      EndBlockStep(s2, t2).Ok? &&
      var s3 := EndBlockStep(s2, t2).value;
      EndBlockStep(s3, t3).Ok? &&
      var s4 := EndBlockStep(s3, t3).value;
      var dAEx := s4.slots[a].timeEx - s.slots[a].timeEx;
      var dAInc := s4.slots[a].timeInc - s.slots[a].timeInc;
      var dBInc := s4.slots[b].timeInc - s.slots[b].timeInc;
      && s4.stack == []
      && dAInc == dAEx + dBInc == t3 - t0
      && dBInc == s4.slots[b].timeEx - s.slots[b].timeEx == t2 - t1
      && dAEx == (t1 - t0) + (t3 - t2)
  {
    var s1 := BeginBlockStep(s, a, "A", "", 0, 0, t0);
    BeginBlockEffect(s, a, "A", "", 0, 0, t0);
    CheckpointsBeforeLater(s1, t0, t1);
    var s2 := BeginBlockStep(s1, b, "B", "", 0, 0, t1);
    BeginBlockEffect(s1, b, "B", "", 0, 0, t1);
    CheckpointsBeforeLater(s2, t1, t2);
    assert s2.stack == [a, b];
    EndBlockEffect(s2, t2);
    var s3 := EndBlockStep(s2, t2).value;
    CheckpointsBeforeLater(s3, t2, t3);
    assert s3.stack == [a];
    EndOutermostEffect(s3, t3);
  }

  /** A region entered and left once per element of `times` (pairs of entry
      and exit timestamps), with the same regions open around it each time. */
  function Repeat(s: ProfilerState, id: u64, times: seq<(nat, nat)>): (r: Result<ProfilerState>)
    requires WellFormed(s)
    ensures r.Ok? ==> WellFormed(r.value)
    decreases |times|
  {
    if times == [] then Ok(s)
    else
      var (enter, leave) := times[0];
      if !(CheckpointsBefore(s, enter) && enter <= leave) then Fatal("timer ran backwards")
      else
        var inside := BeginBlockStep(s, id, "", "", 0, 0, enter);
        assert CheckpointsBefore(inside, leave);
        match EndBlockStep(inside, leave)
        case Fatal(why) => Fatal(why)
        case Ok(after) =>
          Repeat(after, id, times[1..])
  }

  /** Timestamps that never decrease and start no earlier than every
      checkpoint. */
  predicate Ordered(s: ProfilerState, times: seq<(nat, nat)>)
  {
    && (forall k :: 0 <= k < |times| ==> times[k].0 <= times[k].1)
    && (forall k :: 0 <= k < |times| - 1 ==> times[k].1 <= times[k + 1].0)
    && (|times| > 0 ==> CheckpointsBefore(s, times[0].0))
  }

  /** Entering and leaving the same region N times, with monotone timestamps
      and room on the stack, counts exactly N calls and leaves the stack as
      it was. */
  lemma {:induction false} RepeatCountsCalls(s: ProfilerState, id: u64, times: seq<(nat, nat)>)
    requires WellFormed(s) && id < SLOTS && |s.stack| < SLOTS
    requires Ordered(s, times)
    ensures Repeat(s, id, times).Ok?
    ensures Repeat(s, id, times).value.stack == s.stack
    ensures Repeat(s, id, times).value.slots[id].iterations == s.slots[id].iterations + |times|
    decreases |times|
  {
    if times != [] {
      var (enter, leave) := times[0];
      var inside := BeginBlockStep(s, id, "", "", 0, 0, enter);
      assert inside.stack == s.stack + [id];
      var after := EndBlockStep(inside, leave).value;
      assert after.stack == s.stack;
      assert after.slots[id].iterations == s.slots[id].iterations + 1;
      assert CheckpointsBefore(after, leave);
      if |times| > 1 {
        assert leave <= times[1].0;
        assert CheckpointsBefore(after, times[1].0);
      }
      RepeatCountsCalls(after, id, times[1..]);
    }
  }

  /** A scope opened with a negative id records nothing, yet its exit still
      pops: it closes the region that encloses it. */
  lemma NegativeScopeIdClosesParent(s: ProfilerState, id: int, now: nat)
    requires WellFormed(s) && CheckpointsBefore(s, now) && |s.stack| > 0
    requires -0x8000_0000 <= id < 0
    ensures var entered := BeginBlockStep(s, I32ToU64(id), "", "", 0, 0, now);
      entered == s &&
      EndBlockStep(entered, now).Ok? && EndBlockStep(entered, now).value.stack == s.stack[..|s.stack| - 1]
  {
  }

  /** `End` takes effect once: a second call changes nothing and reports
      nothing. */
  lemma EndIsIdempotent(s: ProfilerState)
    ensures EndStep(s).0.ended
    ensures EndStep(s).1 == !s.ended
    ensures EndStep(EndStep(s).0) == (EndStep(s).0, false)
  {
  }

  /** The profiler object. */
  class Profiler {
    var name: string
    var ended: bool
    var start: nat
    var printFile: bool
    const measurements: FixedArray<Measurement>
    const queue: FixedArray<u64>
    /** The latest timestamp the profiler has read. */
    ghost var clock: nat

    function State(): ProfilerState
      reads this, measurements, measurements.data, queue, queue.data
      requires queue.Valid()
    {
      ProfilerState(measurements.data[..], queue.Contents(), ended)
    }

    ghost predicate Valid()
      reads this, measurements, measurements.data, queue, queue.data
    {
      && measurements.Valid() && queue.Valid()
      && measurements.cap == SLOTS && queue.cap == SLOTS
      && WellFormed(State())
      && CheckpointsBefore(State(), clock)
      && start <= clock
    }

    /** `Profiler::New(name, printFile)`, reading the timer at `now`. */
    constructor New(name: string, printFile: bool, now: nat)
      ensures Valid() && fresh(measurements) && fresh(measurements.data)
      ensures fresh(queue) && fresh(queue.data)
      ensures State() == ProfilerState(seq(SLOTS, _ => EMPTY_SLOT), [], false)
      ensures this.name == name && this.printFile == printFile && start == now && clock == now
    {
      this.name := name;
      this.printFile := printFile;
      ended := false;
      start := now;
      clock := now;
      measurements := new FixedArray(SLOTS, EMPTY_SLOT);
      queue := new FixedArray(SLOTS, 0);
    }

    /** The part of `BeginBlock` that charges the enclosing region, if one
        is open, up to `now`. */
    method ChargeOpenRegion(now: nat, ghost s: ProfilerState)
      requires measurements.Valid() && queue.Valid() && measurements.cap == SLOTS && queue.cap == SLOTS
      requires s == State() && WellFormed(s) && CheckpointsBefore(s, now)
      modifies measurements.data
      ensures measurements.data[..] == ChargeTop(s, now)
    {
      if queue.len > 0 {
        var top := queue.Last();
        var p := top.value;
        measurements.data[p] := Charge(measurements.data[p], now);
      }
    }

    /** `BeginBlock(id, regionName, file, line, bytesProcessed)`; the timer reads `now`. */
    method BeginBlock(id: u64, regionName: string, file: string, line: int, bytes: u64, now: nat)
      requires Valid() && clock <= now
      modifies this, measurements.data, queue, queue.data
      ensures Valid()
      ensures State() == BeginBlockStep(old(State()), id, regionName, file, line, bytes, now)
      ensures clock == if id < SLOTS then now else old(clock)
      ensures name == old(name) && start == old(start) && printFile == old(printFile)
    {
      if id < measurements.cap {
        ghost var s := State();
        clock := now;
        ChargeOpenRegion(now, s);
        OpenRegion(id, regionName, file, line, bytes, now, s);
      }
    }

    /** The part of `BeginBlock()` after the parent is charged: slot `id`
        takes the call-site details and is pushed on the stack. */
    method OpenRegion(id: u64, regionName: string, file: string, line: int, bytes: u64, now: nat,
                      ghost s: ProfilerState)
      requires measurements.Valid() && queue.Valid() && measurements.cap == SLOTS && queue.cap == SLOTS
      requires WellFormed(s) && CheckpointsBefore(s, now) && id < SLOTS
      requires measurements.data[..] == ChargeTop(s, now) && queue.Contents() == s.stack
      modifies measurements.data, queue, queue.data
      ensures queue.Valid() && queue.cap == SLOTS
      ensures measurements.data[..] == BeginBlockStep(s, id, regionName, file, line, bytes, now).slots
      ensures queue.Contents() == BeginBlockStep(s, id, regionName, file, line, bytes, now).stack
    {
      var m := measurements.data[id];
      measurements.data[id] := m.(from := now, name := regionName, file := file, line := line,
                                  bytesProcessed := m.bytesProcessed + bytes);
      queue.Push(id);
      m := measurements.data[id];
      measurements.data[id] := m.(iterations := m.iterations + 1);
    }

    /** `AddBytes(bytes)`: aborts when no region is open. */
    method AddBytes(bytes: u64) returns (r: Result<()>)
      requires Valid()
      modifies measurements.data
      ensures Valid()
      ensures match AddBytesStep(old(State()), bytes)
        case Fatal(_) => r.Fatal?
        case Ok(t) => r.Ok? && State() == t
    {
      var top := queue.Last();
      if top.Fatal? {
        return Fatal(top.reason);
      }
      var p := top.value;
      measurements.data[p] := measurements.data[p].(bytesProcessed := measurements.data[p].bytesProcessed + bytes);
      r := Ok(());
    }

    /** `BeginScopeBlock(id, regionName, file, line, bytesProcessed)`: `BeginBlock`
        with the `i32` id converted to `u64`. Leaving the scope (the
        `BlockFlag` destructor) is `EndBlock`. */
    method BeginScopeBlock(id: int, regionName: string, file: string, line: int, bytes: u64, now: nat)
      requires -0x8000_0000 <= id < 0x8000_0000
      requires Valid() && clock <= now
      modifies this, measurements.data, queue, queue.data
      ensures Valid()
      ensures State() == BeginBlockStep(old(State()), I32ToU64(id), regionName, file, line, bytes, now)
      ensures clock == if I32ToU64(id) < SLOTS then now else old(clock)
      ensures name == old(name) && start == old(start) && printFile == old(printFile)
    {
      BeginBlock(I32ToU64(id), regionName, file, line, bytes, now);
    }

    /** The part of `EndBlock` after region `id` was popped: the parent, if
        one is open, resumes at `now` and takes the region's last stretch
        into its inclusive total. */
    method HandBackToParent(id: u64, now: nat)
      requires measurements.Valid() && queue.Valid() && measurements.cap == SLOTS && queue.cap == SLOTS
      requires id < SLOTS && (forall k :: 0 <= k < |queue.Contents()| ==> queue.Contents()[k] < SLOTS)
      requires measurements.data[id].from <= now
      modifies measurements.data
      ensures measurements.data[..] == HandBack(old(measurements.data[..]), queue.Contents(), id, now)
    {
      if queue.len > 0 {
        var top := queue.Last();
        var p := top.value;
        measurements.data[p] := measurements.data[p].(from := now);
        measurements.data[p] := measurements.data[p].(timeInc := measurements.data[p].timeInc + (now - measurements.data[id].from));
      }
    }

    /** The part of `EndBlock()` after the pop: the region `id` taken off
        the stack of `s` is charged up to `now` and its parent resumed. */
    method CloseRegion(id: u64, now: nat, ghost s: ProfilerState)
      requires measurements.Valid() && queue.Valid() && measurements.cap == SLOTS && queue.cap == SLOTS
      requires WellFormed(s) && CheckpointsBefore(s, now) && |s.stack| > 0
      requires measurements.data[..] == s.slots && id == Top(s)
      requires queue.Contents() == s.stack[..|s.stack| - 1]
      modifies measurements.data
      ensures measurements.data[..] == EndBlockStep(s, now).value.slots
    {
      measurements.data[id] := Charge(measurements.data[id], now);
      HandBackToParent(id, now);
    }

    /** `EndBlock()`; the timer reads `now`. Aborts when no region is open. */
    method EndBlock(now: nat) returns (r: Result<()>)
      requires Valid() && clock <= now
      modifies this, measurements.data, queue, queue.data
      ensures Valid() && clock == now
      ensures match EndBlockStep(old(State()), now)
        case Fatal(_) => r.Fatal?
        case Ok(t) => r.Ok? && State() == t
      ensures name == old(name) && start == old(start) && printFile == old(printFile)
    {
      ghost var s := State();
      clock := now;
      var popped := queue.Pop();
      r := Ok(());
      if popped.Fatal? {
        r := Fatal(popped.reason);
      } else {
        var id := popped.value;
        CloseRegion(id, now, s);
      }
    }

    /** `End()`: only the first call has an effect (printing the summary,
        which is not modelled); it reports whether it did. */
    method End() returns (reported: bool)
      requires Valid()
      modifies this
      ensures Valid()
      ensures (State(), reported) == EndStep(old(State()))
      ensures name == old(name) && start == old(start) && clock == old(clock) && printFile == old(printFile)
    {
      if !ended {
        ended := true;
      } else {
        return false;
      }
      reported := true;
    }
  }
}
