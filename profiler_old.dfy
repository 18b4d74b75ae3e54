/** The older, flat profiler of `profiler_old.cpp`: a buffer of `M_MAX`
    timestamped measurements filled in order through the cursor `count`,
    loop slots that are overwritten until the loop is closed, a list of
    sub-profilers together with the slot at which each was registered, and
    a report that is produced at most once. Timestamps are parameters; the
    report's text is not modelled. */
module FlatProfiler {
  import opened Containers

  /** `M_MAX`, the default of the `#ifndef`. */
  const M_MAX: nat := 32

  /** `FixedArray<..., 16>` for the children. */
  const MAX_CHILDREN: nat := 16

  /** One entry of `buf`; `name` is the source's `label`. */
  datatype Measurement = Measurement(name: string, measurement: nat, iterations: nat)

  const EMPTY_MEASUREMENT: Measurement := Measurement("", 0, 0)

  /** The buffer, its cursor and the `ended` flag. */
  datatype FlatState = FlatState(buf: seq<Measurement>, count: nat, ended: bool)

  /** How a call of `EndAndPrint` ends: it had already ended, it had nothing
      recorded, or it reports the recorded measurements. */
  datatype EndOutcome = AlreadyEnded | NothingRecorded | Reported

  /** The measurement written at slot `count` at time `now`: its iteration
      count is one more than that slot's previous count. */
  function Stamp(s: FlatState, regionName: string, now: nat): Measurement
    requires |s.buf| == M_MAX && s.count < M_MAX
  {
    Measurement(regionName, now, s.buf[s.count].iterations + 1)
  }

  /** `Add(label)`: ignored once `count + 1` reaches `M_MAX`; otherwise stamps
      slot `count` and advances `count`. */
  function AddStep(s: FlatState, regionName: string, now: nat): (r: FlatState)
    requires |s.buf| == M_MAX
    ensures |r.buf| == M_MAX && r.ended == s.ended && s.count <= r.count <= s.count + 1
    ensures forall i :: 0 <= i < M_MAX && i != s.count ==> r.buf[i] == s.buf[i]
    ensures r.count == s.count + 1 ==> s.count + 1 < M_MAX && r.buf[s.count] == Measurement(regionName, now, s.buf[s.count].iterations + 1)
  {
    if s.count + 1 >= M_MAX then s
    else s.(buf := s.buf[s.count := Stamp(s, regionName, now)], count := s.count + 1)
  }

  /** `AddLoop(label)`: the same guard and stamp, but `count` stays. */
  function AddLoopStep(s: FlatState, regionName: string, now: nat): (r: FlatState)
    requires |s.buf| == M_MAX
    ensures |r.buf| == M_MAX && r.ended == s.ended && r.count == s.count
    ensures forall i :: 0 <= i < M_MAX && i != s.count ==> r.buf[i] == s.buf[i]
  {
    if s.count + 1 >= M_MAX then s
    else s.(buf := s.buf[s.count := Stamp(s, regionName, now)])
  }

  /** `EndLoop()`: advances `count`, with no bound check. */
  function EndLoopStep(s: FlatState): (r: FlatState)
    ensures r.buf == s.buf && r.ended == s.ended && r.count == s.count + 1
  {
    s.(count := s.count + 1)
  }

  /** `EndAndPrint()`: sets `ended`; only the first call has any effect. */
  function EndAndPrintStep(s: FlatState): (r: (FlatState, EndOutcome))
    ensures r.0.ended && r.0.buf == s.buf && r.0.count == s.count
    ensures r.1 == AlreadyEnded <==> s.ended
    ensures r.1 == Reported <==> !s.ended && s.count > 0
  {
    if s.ended then (s, AlreadyEnded)
    else if s.count == 0 then (s.(ended := true), NothingRecorded)
    else (s.(ended := true), Reported)
  }

  /** `Add` alone never moves `count` past `M_MAX - 1`, and it either stamps
      slot `count` and advances by one, or changes nothing. */
  lemma AddKeepsCursorInRange(s: FlatState, regionName: string, now: nat)
    requires |s.buf| == M_MAX && s.count <= M_MAX - 1
    ensures var t := AddStep(s, regionName, now);
      && t.count <= M_MAX - 1
      && (s.count + 1 < M_MAX ==> t.count == s.count + 1 && t.buf[s.count] == Measurement(regionName, now, s.buf[s.count].iterations + 1))
      && (s.count + 1 >= M_MAX ==> t == s)
  {
  }

  /** A loop body timed with `AddLoop` once per element of `stamps`. */
  function AddLoops(s: FlatState, regionName: string, stamps: seq<nat>): (t: FlatState)
    requires |s.buf| == M_MAX
    ensures |t.buf| == M_MAX
    decreases |stamps|
  {
    if stamps == [] then s
    else AddLoops(AddLoopStep(s, regionName, stamps[0]), regionName, stamps[1..])
  }

  /** Repeated `AddLoop` calls reuse one slot: `count` stays, the slot's
      iteration count grows by the number of calls, it holds the last
      timestamp, and no other slot changes. */
  lemma {:induction false} AddLoopsReuseOneSlot(s: FlatState, regionName: string, stamps: seq<nat>)
    requires |s.buf| == M_MAX && s.count + 1 < M_MAX && |stamps| > 0
    ensures var t := AddLoops(s, regionName, stamps);
      && t.count == s.count
      && t.buf[s.count] == Measurement(regionName, stamps[|stamps| - 1], s.buf[s.count].iterations + |stamps|)
      && (forall i :: 0 <= i < M_MAX && i != s.count ==> t.buf[i] == s.buf[i])
      && t.ended == s.ended
    decreases |stamps|
  {
    var next := AddLoopStep(s, regionName, stamps[0]);
    if |stamps| > 1 {
      AddLoopsReuseOneSlot(next, regionName, stamps[1..]);
      assert stamps[1..][|stamps[1..]| - 1] == stamps[|stamps| - 1];
    }
  }

  /** `EndAndPrint` takes effect once: the first call sets `ended` (and reports
      only if something was recorded); every later call changes nothing. */
  lemma EndAndPrintOnce(s: FlatState)
    ensures var (t, outcome) := EndAndPrintStep(s);
      && t.ended && t.buf == s.buf && t.count == s.count
      && (s.ended <==> outcome == AlreadyEnded)
      && (!s.ended ==> (outcome == Reported <==> s.count > 0))
      && EndAndPrintStep(t) == (t, AlreadyEnded)
  {
  }

  /** The report's walk over the children: rows `i` run from `from` below
      `count`, and row `i` ends child `child` and moves to the next one
      when that child was registered at slot `i`. The result is how many
      children, from the first, the walk has ended when it stops. */
  function ScanFrom(slots: seq<nat>, count: nat, from: nat, child: nat): (k: nat)
    requires child <= |slots|
    ensures child <= k <= |slots|
    decreases count - from
  {
    if from >= count then child
    else ScanFrom(slots, count, from + 1, if child < |slots| && slots[child] == from then child + 1 else child)
  }

  /** The number of children a report ends: a prefix of the children. */
  function ScannedChildren(slots: seq<nat>, count: nat): nat
  {
    ScanFrom(slots, count, 0, 0)
  }

  /** Child `k` is reached: the slots of children `0..k` are below `count`
      and strictly increasing. */
  ghost predicate Reached(slots: seq<nat>, k: nat, count: nat)
  {
    k < |slots| && Ascending(slots, k + 1, count)
  }

  /** The first `k` slots are below `bound` and strictly increasing. */
  ghost predicate Ascending(slots: seq<nat>, k: nat, bound: nat)
    requires k <= |slots|
  {
    && (forall j :: 0 <= j < k ==> slots[j] < bound)
    && (forall j :: 0 < j < k ==> slots[j - 1] < slots[j])
  }

  /** From any point of the walk, it stops at the longest prefix whose slots
      are below `count` and strictly increasing. */
  lemma {:induction false} ScanFromStopsAtLongestAscending(slots: seq<nat>, count: nat, from: nat, child: nat)
    requires child <= |slots| && from <= count && Ascending(slots, child, from)
    requires child < |slots| ==> from <= slots[child] || (0 < child && slots[child] <= slots[child - 1])
    ensures var k := ScanFrom(slots, count, from, child);
      Ascending(slots, k, count) && (k < |slots| ==> !Ascending(slots, k + 1, count))
    decreases count - from
  {
    if from < count {
      var next := if child < |slots| && slots[child] == from then child + 1 else child;
      ScanFromStopsAtLongestAscending(slots, count, from + 1, next);
    }
  }

  /** A report ends child `k` exactly when the slots of children `0..k` are
      all below `count` and strictly increasing; so two children registered
      at the same slot stop the walk, and neither the second nor any later
      child is ended. */
  lemma ScannedChildrenExactly(slots: seq<nat>, count: nat)
    ensures ScannedChildren(slots, count) <= |slots|
    ensures forall k :: 0 <= k < |slots| ==> (k < ScannedChildren(slots, count) <==> Reached(slots, k, count))
    ensures forall j :: 0 <= j < |slots| - 1 && slots[j] == slots[j + 1] ==> ScannedChildren(slots, count) <= j + 1
  {
    var n := ScannedChildren(slots, count);
    ScanFromStopsAtLongestAscending(slots, count, 0, 0);
    forall k | 0 <= k < |slots|
      ensures k < n <==> Reached(slots, k, count)
    {
      if k >= n && Reached(slots, k, count) {
        assert Ascending(slots, n + 1, count);
      }
    }
  }

  /** The profiler object. */
  class Profiler {
    var name: string
    var subLayer: nat
    var start: nat
    var count: nat
    var ended: bool
    const buf: array<Measurement>
    const childrenSlot: FixedArray<nat>
    const children: FixedArray<Profiler?>

    function State(): FlatState
      reads this, buf
    {
      FlatState(buf[..], count, ended)
    }

    ghost predicate Valid()
      reads this, childrenSlot, children
    {
      && buf.Length == M_MAX
      && childrenSlot.Valid() && childrenSlot.cap == MAX_CHILDREN
      && children.Valid() && children.cap == MAX_CHILDREN
    }

    /** Every registered child has its slot, and is a profiler. */
    ghost predicate Registered()
      reads childrenSlot, children, children.data
    {
      && children.Valid() && childrenSlot.len == children.len
      && (forall j :: 0 <= j < children.len ==> children.data[j] != null)
    }

    /** `Profiler::New(name)`, reading the timer at `now`. */
    constructor New(name: string, now: nat)
      ensures Valid() && fresh(buf) && fresh(childrenSlot) && fresh(childrenSlot.data)
      ensures fresh(children) && fresh(children.data)
      ensures State() == FlatState(seq(M_MAX, _ => EMPTY_MEASUREMENT), 0, false)
      ensures this.name == name && start == now && subLayer == 0
      ensures childrenSlot.len == 0 && children.len == 0 && Registered()
    {
      this.name := name;
      subLayer := 0;
      start := now;
      count := 0;
      ended := false;
      buf := new Measurement[M_MAX](_ => EMPTY_MEASUREMENT);
      childrenSlot := new FixedArray(MAX_CHILDREN, 0);
      children := new FixedArray(MAX_CHILDREN, null);
    }

    /** `Add(label)`; the timer reads `now`. */
    method Add(regionName: string, now: nat)
      requires Valid()
      modifies this, buf
      ensures Valid()
      ensures State() == AddStep(old(State()), regionName, now)
      ensures name == old(name) && subLayer == old(subLayer) && start == old(start)
    {
      if count + 1 >= M_MAX {
        return;
      }
      buf[count] := Measurement(regionName, now, buf[count].iterations + 1);
      count := count + 1;
    }

    /** `AddLoop(label)`; the timer reads `now`. */
    method AddLoop(regionName: string, now: nat)
      requires Valid()
      modifies buf
      ensures Valid()
      ensures State() == AddLoopStep(old(State()), regionName, now)
    {
      if count + 1 >= M_MAX {
        return;
      }
      buf[count] := Measurement(regionName, now, buf[count].iterations + 1);
    }

    /** `EndLoop()`. */
    method EndLoop()
      requires Valid()
      modifies this
      ensures Valid()
      ensures State() == EndLoopStep(old(State()))
      ensures name == old(name) && subLayer == old(subLayer) && start == old(start)
    {
      count := count + 1;
    }

    /** `Add(Profiler *sub)`: records the current `count` as the child's slot,
        places the child one layer deeper, adds a measurement labelled with
        the child's name, and registers the child (a full list drops it). */
    method AddChild(sub: Profiler, now: nat)
      requires Valid() && Registered()
      modifies this, buf, sub, childrenSlot, childrenSlot.data, children, children.data
      ensures Valid() && Registered()
      ensures childrenSlot.Contents() ==
        if old(childrenSlot.len) < MAX_CHILDREN then old(childrenSlot.Contents()) + [old(count)]
        else old(childrenSlot.Contents())
      ensures children.Contents() ==
        if old(children.len) < MAX_CHILDREN then old(children.Contents()) + [sub]
        else old(children.Contents())
      ensures sub.subLayer == old(subLayer) + 1
      ensures State() == AddStep(old(State()), old(sub.name), now)
      ensures name == old(name) && start == old(start)
      ensures sub.name == old(sub.name) && sub.start == old(sub.start)
      ensures sub != this ==> subLayer == old(subLayer) && sub.count == old(sub.count) && sub.ended == old(sub.ended)
    {
      childrenSlot.Push(count);
      sub.subLayer := subLayer + 1;
      Add(sub.name, now);
      children.Push(sub);
    }

    /** `EndAndPrint()`: the `ended` guard and the empty-buffer shortcut,
        then the report, whose walk over the rows ends the children
        `ScannedChildren` selects. A child's own `EndAndPrint` sets its
        `ended` on every path (`EndAndPrintOnce`); what it does to its own
        children is not followed. */
    method EndAndPrint() returns (outcome: EndOutcome)
      requires Valid() && Registered()
      modifies this, children.data[..children.len]
      ensures Valid()
      ensures (State(), outcome) == EndAndPrintStep(old(State()))
      ensures name == old(name) && subLayer == old(subLayer) && start == old(start)
      ensures var k := if outcome == Reported then ScannedChildren(childrenSlot.Contents(), old(count)) else 0;
        && k <= children.len
        && (forall j :: 0 <= j < k ==> children.data[j].ended)
        && (forall j :: k <= j < children.len && children.data[j] !in children.data[..k] && children.data[j] != this ==>
              children.data[j].ended == old(children.data[j].ended))
      ensures forall j :: 0 <= j < children.len ==>
        var c := children.data[j];
        c.name == old(c.name) && c.subLayer == old(c.subLayer) && c.start == old(c.start) && c.count == old(c.count)
    {
      if ended {
        return AlreadyEnded;
      }
      if count == 0 {
        ended := true;
        return NothingRecorded;
      }
      ended := true;
      outcome := Reported;
      ghost var slots := childrenSlot.Contents();
      ghost var total := ScannedChildren(slots, count);
      var rows := count;
      var child := 0;
      for i := 0 to rows
        invariant child <= children.len && ScanFrom(slots, rows, i, child) == total
        invariant count == rows && ended && buf[..] == old(buf[..])
        invariant name == old(name) && subLayer == old(subLayer) && start == old(start)
        invariant forall j :: 0 <= j < child ==> children.data[j].ended
        invariant forall j :: child <= j < children.len && children.data[j] !in children.data[..child] && children.data[j] != this ==>
          children.data[j].ended == old(children.data[j].ended)
        invariant forall j :: 0 <= j < children.len ==>
          var c := children.data[j];
          c.name == old(c.name) && c.subLayer == old(c.subLayer) && c.start == old(c.start) && c.count == old(c.count)
      {
        if child < children.len && childrenSlot.data[child] == i {
          children.data[child].ended := true;
          child := child + 1;
        }
      }
    }
  }
}
