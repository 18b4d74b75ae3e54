/** The inclusive time `EndBlock` in `profiler.cpp` evidently means to keep:
    when a region closes, its parent's inclusive total grows by the whole
    time the region was open. The code adds `now - m->from` instead, and a
    region's `from` moves forward every time one of its own children closes,
    so from three levels of nesting on the grandparent falls short
    (`AsWrittenDepthThreeShortfall`). Here every open region's entry time is
    kept beside its id, and the hand-back uses it. */
module InclusiveTime {
  import opened Common
  import opened Profiler

  /** Every entry time is at or before `clock`. */
  predicate EnteredBefore(entered: seq<nat>, clock: nat)
  {
    forall k :: 0 <= k < |entered| ==> entered[k] <= clock
  }

  /** `BeginBlock` as written, with the entry time of a pushed region
      recorded beside its id. */
  function IntendedBeginBlockStep(s: ProfilerState, entered: seq<nat>, id: u64, regionName: string, file: string,
                                  line: int, bytes: u64, now: nat): (r: (ProfilerState, seq<nat>))
    requires WellFormed(s) && CheckpointsBefore(s, now) && |entered| == |s.stack| && EnteredBefore(entered, now)
    ensures r.0 == BeginBlockStep(s, id, regionName, file, line, bytes, now)
    ensures |r.1| == |r.0.stack| && EnteredBefore(r.1, now) && r.1[..|entered|] == entered
  {
    var t := BeginBlockStep(s, id, regionName, file, line, bytes, now);
    (t, if id < SLOTS && |s.stack| < SLOTS then entered + [now] else entered)
  }

  /** `EndBlock` handing the parent the closed region's whole visit, `now`
      minus its entry time, rather than `now - m->from`. */
  function IntendedEndBlockStep(s: ProfilerState, entered: seq<nat>, now: nat): (r: Result<(ProfilerState, seq<nat>)>)
    requires WellFormed(s) && CheckpointsBefore(s, now) && |entered| == |s.stack| && EnteredBefore(entered, now)
    ensures r.Fatal? <==> EndBlockStep(s, now).Fatal?
    ensures r.Ok? ==>
      var (t, e) := r.value; var w := EndBlockStep(s, now).value;
      && WellFormed(t) && CheckpointsBefore(t, now)
      && t.stack == w.stack && t.ended == w.ended && e == entered[..|entered| - 1]
      && (forall i :: 0 <= i < SLOTS ==> t.slots[i].from == w.slots[i].from && t.slots[i].timeEx == w.slots[i].timeEx)
      && (forall i :: 0 <= i < SLOTS && (|t.stack| == 0 || i != Top(t)) ==> t.slots[i] == w.slots[i])
  {
    if |s.stack| == 0 then Fatal("Pop on an empty FixedArray")
    else
      var id := Top(s);
      var n := |s.stack|;
      var rest := s.stack[..n - 1];
      Ok((ProfilerState(HandBackSince(s.slots[id := Charge(s.slots[id], now)], rest, entered[n - 1], now), rest, s.ended),
          entered[..n - 1]))
  }

  /** The bookkeeping the intended hand-back keeps for open regions with
      distinct ids, `base[k]` being the inclusive total of the k-th open
      region when it was entered at `entered[k]`: a region below the top has
      been credited exactly up to its child's entry, and the top region
      exactly up to its checkpoint. */
  predicate Accounts(s: ProfilerState, entered: seq<nat>, base: seq<nat>)
    requires WellFormed(s)
  {
    && |entered| == |s.stack| && |base| == |s.stack|
    && (forall j, k :: 0 <= j < k < |s.stack| ==> s.stack[j] != s.stack[k])
    && (forall j, k :: 0 <= j <= k < |entered| ==> entered[j] <= entered[k])
    && (forall k :: 0 <= k < |s.stack| - 1 ==>
          s.slots[s.stack[k]].timeInc == base[k] + (entered[k + 1] - entered[k]))
    && (|s.stack| > 0 ==>
          var n := |s.stack|;
          && entered[n - 1] <= s.slots[Top(s)].from
          && s.slots[Top(s)].timeInc == base[n - 1] + (s.slots[Top(s)].from - entered[n - 1]))
  }

  /** With every region closed the bookkeeping holds trivially. */
  lemma NothingOpenAccounts(s: ProfilerState)
    requires WellFormed(s) && |s.stack| == 0
    ensures Accounts(s, [], [])
  {
  }

  /** The open regions' entry times all lie at or before the clock. */
  lemma AccountsEnteredBefore(s: ProfilerState, entered: seq<nat>, base: seq<nat>, now: nat)
    requires WellFormed(s) && CheckpointsBefore(s, now) && Accounts(s, entered, base)
    ensures EnteredBefore(entered, now)
  {
    if |s.stack| > 0 {
      var n := |s.stack|;
      assert s.slots[Top(s)].from <= now;
      forall k | 0 <= k < |entered|
        ensures entered[k] <= now
      {
        assert entered[k] <= entered[n - 1];
      }
    }
  }

  /** Entering a region that is not already open keeps the bookkeeping, the
      new region's base being its inclusive total at entry. */
  lemma IntendedBeginKeepsAccounts(s: ProfilerState, entered: seq<nat>, base: seq<nat>, id: u64,
                                   regionName: string, file: string, line: int, bytes: u64, now: nat)
    requires WellFormed(s) && CheckpointsBefore(s, now) && Accounts(s, entered, base)
    requires id < SLOTS && id !in s.stack && |s.stack| < SLOTS
    ensures EnteredBefore(entered, now)
    ensures var r := IntendedBeginBlockStep(s, entered, id, regionName, file, line, bytes, now);
      Accounts(r.0, r.1, base + [s.slots[id].timeInc])
  {
    AccountsEnteredBefore(s, entered, base, now);
    var r := IntendedBeginBlockStep(s, entered, id, regionName, file, line, bytes, now);
    var t, e, b := r.0, r.1, base + [s.slots[id].timeInc];
    var n := |s.stack|;
    assert t.slots == ChargeTop(s, now)[id := Enter(ChargeTop(s, now)[id], regionName, file, line, bytes, now)];
    assert t.stack == s.stack + [id] && e == entered + [now];
    assert t.slots[id].from == now && t.slots[id].timeInc == s.slots[id].timeInc;
    forall j, k | 0 <= j < k < |t.stack|
      ensures t.stack[j] != t.stack[k]
    {
      if k == n {
        assert s.stack[j] in s.stack;
      }
    }
    forall k | 0 <= k < |t.stack| - 1
      ensures t.slots[t.stack[k]].timeInc == b[k] + (e[k + 1] - e[k])
    {
      assert t.stack[k] == s.stack[k] != id;
      if k < n - 1 {
        assert s.stack[k] != Top(s);
      }
    }
    forall j, k | 0 <= j <= k < |e|
      ensures e[j] <= e[k]
    {
      if k == n {
        assert e[j] <= now;
      }
    }
    assert t.slots[Top(t)].timeInc == b[n] + (t.slots[Top(t)].from - e[n]);
  }

  /** Leaving the innermost region, at any depth, credits it exactly the
      time it was open (`now` minus its entry time) on top of its inclusive
      total at entry, and keeps the bookkeeping of the regions still open:
      the parent now holds its own time plus the whole visit. */
  lemma IntendedEndChargesWholeVisit(s: ProfilerState, entered: seq<nat>, base: seq<nat>, now: nat)
    requires WellFormed(s) && CheckpointsBefore(s, now) && Accounts(s, entered, base) && |s.stack| > 0
    ensures EnteredBefore(entered, now)
    ensures IntendedEndBlockStep(s, entered, now).Ok?
    ensures var (t, e) := IntendedEndBlockStep(s, entered, now).value;
      var n := |s.stack|;
      && t.slots[Top(s)].timeInc == base[n - 1] + (now - entered[n - 1])
      && Accounts(t, e, base[..n - 1])
  {
    AccountsEnteredBefore(s, entered, base, now);
    var (t, e) := IntendedEndBlockStep(s, entered, now).value;
    var n := |s.stack|;
    var id := Top(s);
    var rest := s.stack[..n - 1];
    var charged := s.slots[id := Charge(s.slots[id], now)];
    assert t.slots == HandBackSince(charged, rest, entered[n - 1], now);
    assert t.stack == rest;
    assert id !in rest by {
      forall k | 0 <= k < n - 1
        ensures rest[k] != id
      {
        assert s.stack[k] != s.stack[n - 1];
      }
    }
    forall k | 0 <= k < |rest| - 1
      ensures t.slots[rest[k]].timeInc == base[..n - 1][k] + (e[k + 1] - e[k])
    {
      assert rest[k] != rest[|rest| - 1] by {
        assert s.stack[k] != s.stack[n - 2];
      }
    }
  }

  /** Regions A, B and C (slots `a`, `b`, `c`) entered at `t0`, `t1` and
      `t2`, with nothing open before, as the code is written: A and B have
      been charged up to their child's entry and keep their checkpoints. */
  lemma ThreeOpen(s: ProfilerState, a: u64, b: u64, c: u64, t0: nat, t1: nat, t2: nat)
    requires WellFormed(s) && CheckpointsBefore(s, t0) && |s.stack| == 0
    requires a < SLOTS && b < SLOTS && c < SLOTS && a != b && b != c && a != c
    requires t0 <= t1 <= t2
    ensures var s1 := BeginBlockStep(s, a, "A", "", 0, 0, t0);
      var s2 := BeginBlockStep(s1, b, "B", "", 0, 0, t1);
      var s3 := BeginBlockStep(s2, c, "C", "", 0, 0, t2);
      && s3.stack == [a, b, c]
      && s3.slots[a].timeInc == s.slots[a].timeInc + (t1 - t0)
      && s3.slots[b].timeInc == s.slots[b].timeInc + (t2 - t1) && s3.slots[b].from == t1
      && s3.slots[c].timeInc == s.slots[c].timeInc && s3.slots[c].from == t2
  {
    var s1 := BeginBlockStep(s, a, "A", "", 0, 0, t0);
    BeginBlockEffect(s, a, "A", "", 0, 0, t0);
    CheckpointsBeforeLater(s1, t0, t1);
    var s2 := BeginBlockStep(s1, b, "B", "", 0, 0, t1);
    BeginBlockEffect(s1, b, "B", "", 0, 0, t1);
    CheckpointsBeforeLater(s2, t1, t2);
    BeginBlockEffect(s2, c, "C", "", 0, 0, t2);
  }

  /** The same regions closing at `t3`, `t4` and `t5`, as the code is
      written. A's inclusive total grows by `(t1 - t0) + (t5 - t3)`, short
      of its visit `t5 - t0` by `t3 - t1`: when B closed, its checkpoint had
      already moved to C's exit. B and C are credited their whole visits. */
  lemma AsWrittenDepthThreeShortfall(s: ProfilerState, a: u64, b: u64, c: u64,
                                     t0: nat, t1: nat, t2: nat, t3: nat, t4: nat, t5: nat)
    requires WellFormed(s) && CheckpointsBefore(s, t0) && |s.stack| == 0
    requires a < SLOTS && b < SLOTS && c < SLOTS && a != b && b != c && a != c
    requires t0 <= t1 <= t2 <= t3 <= t4 <= t5
    ensures var s1 := BeginBlockStep(s, a, "A", "", 0, 0, t0);
      var s2 := BeginBlockStep(s1, b, "B", "", 0, 0, t1);
      var s3 := BeginBlockStep(s2, c, "C", "", 0, 0, t2);
      EndBlockStep(s3, t3).Ok? &&
      var s4 := EndBlockStep(s3, t3).value;
      EndBlockStep(s4, t4).Ok? &&
      var s5 := EndBlockStep(s4, t4).value;
      EndBlockStep(s5, t5).Ok? &&
      var s6 := EndBlockStep(s5, t5).value;
      && s6.stack == []
      && s6.slots[a].timeInc - s.slots[a].timeInc == (t1 - t0) + (t5 - t3)
      && s6.slots[b].timeInc - s.slots[b].timeInc == t4 - t1
      && s6.slots[c].timeInc - s.slots[c].timeInc == t3 - t2
  {
    var s3 := BeginBlockStep(BeginBlockStep(BeginBlockStep(s, a, "A", "", 0, 0, t0), b, "B", "", 0, 0, t1), c, "C", "", 0, 0, t2);
    ThreeOpen(s, a, b, c, t0, t1, t2);
    CheckpointsBeforeLater(s3, t2, t3);
    EndBlockEffect(s3, t3);
    var s4 := EndBlockStep(s3, t3).value;
    CheckpointsBeforeLater(s4, t3, t4);
    assert s4.stack == [a, b];
    EndBlockEffect(s4, t4);
    var s5 := EndBlockStep(s4, t4).value;
    CheckpointsBeforeLater(s5, t4, t5);
    assert s5.stack == [a];
    EndOutermostEffect(s5, t5);
  }

  /** The smallest such run: slots 1, 2 and 3 open at 0, 1 and 2 and close
      at 3, 4 and 5. The outer region was open for 5 ticks and is credited 3. */
  lemma AsWrittenDepthThreeExample(s: ProfilerState)
    requires WellFormed(s) && CheckpointsBefore(s, 0) && |s.stack| == 0
    ensures var s1 := BeginBlockStep(s, 1, "A", "", 0, 0, 0);
      var s2 := BeginBlockStep(s1, 2, "B", "", 0, 0, 1);
      var s3 := BeginBlockStep(s2, 3, "C", "", 0, 0, 2);
      EndBlockStep(s3, 3).Ok? &&
      var s4 := EndBlockStep(s3, 3).value;
      EndBlockStep(s4, 4).Ok? &&
      var s5 := EndBlockStep(s4, 4).value;
      EndBlockStep(s5, 5).Ok? &&
      EndBlockStep(s5, 5).value.slots[1].timeInc == s.slots[1].timeInc + 3
  {
    AsWrittenDepthThreeShortfall(s, 1, 2, 3, 0, 1, 2, 3, 4, 5);
  }
}
