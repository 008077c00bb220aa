/** Packing texts into embedding requests, and bisecting the requests that a provider finds too large. */
module Batcher {
  import opened Prelude

  const MAX_CAPACITY_RETRY_DEPTH: nat := 8

  datatype Limits = Limits(maxInput: Option<Usize>, maxBatch: Option<Usize>, maxItems: Usize, reserved: Usize) {
    /** What is left of the input limit after the reserve, never below zero. */
    function InputBudget(): Option<Usize> {
      if maxInput.None? then None
      else Some(if maxInput.value >= reserved then maxInput.value - reserved else 0)
    }

    predicate Oversized(count: Usize) {
      (InputBudget().Some? && count > InputBudget().value) || (maxBatch.Some? && count > maxBatch.value)
    }

    function ItemLimit(): nat { if maxItems < 1 then 1 else maxItems }
  }

  // ---------- What a batch may hold ----------

  function Sum(indices: seq<nat>, counts: seq<Usize>): nat
    requires forall i | 0 <= i < |indices| :: indices[i] < |counts|
  {
    if indices == [] then 0 else Sum(indices[..|indices| - 1], counts) + counts[indices[|indices| - 1]]
  }

  function Largest(indices: seq<nat>, counts: seq<Usize>): nat
    requires forall i | 0 <= i < |indices| :: indices[i] < |counts|
  {
    if indices == [] then 0 else Max(Largest(indices[..|indices| - 1], counts), counts[indices[|indices| - 1]])
  }

  /** The batch is within the item limit and, counted without overflow, within the token limit. */
  predicate Fits(batch: seq<nat>, counts: seq<Usize>, limits: Limits) {
    && (forall i | 0 <= i < |batch| :: batch[i] < |counts|)
    && |batch| <= limits.ItemLimit()
    && (limits.maxBatch.Some? ==> SaturatingAdd(Sum(batch, counts), 0) <= limits.maxBatch.value)
  }

  ghost predicate AllFit(batches: seq<seq<nat>>, counts: seq<Usize>, limits: Limits) {
    forall k | 0 <= k < |batches| :: Fits(batches[k], counts, limits)
  }

  /** Every batch has room for itself, and none has room for the text that opens the next. */
  ghost predicate Packed(batches: seq<seq<nat>>, counts: seq<Usize>, limits: Limits) {
    && AllFit(batches, counts, limits)
    && (forall k | 0 <= k < |batches| :: batches[k] != [])
    && (forall k | 0 <= k < |batches| - 1 :: !Fits(batches[k] + [batches[k + 1][0]], counts, limits))
  }

  lemma {:induction false} SumOfSlice(batch: seq<nat>, from: nat, to: nat, counts: seq<Usize>)
    requires from <= to <= |batch| && forall i | 0 <= i < |batch| :: batch[i] < |counts|
    ensures Sum(batch[from..to], counts) <= Sum(batch, counts)
    decreases |batch|
  {
    if batch != [] {
      var shorter := batch[..|batch| - 1];
      if to == |batch| && from < to {
        SumOfSlice(shorter, from, to - 1, counts);
        SliceOfSlice(batch, from, to, 0, to - from - 1);
        SliceOfSlice(batch, 0, |batch| - 1, from, to - 1);
      } else if from < to {
        SumOfSlice(shorter, from, to, counts);
        SliceOfSlice(batch, 0, |batch| - 1, from, to);
      }
    }
  }

  /** Part of a batch that fits also fits. */
  lemma FitsDownward(batch: seq<nat>, from: nat, to: nat, counts: seq<Usize>, limits: Limits)
    requires from <= to <= |batch| && Fits(batch, counts, limits)
    ensures Fits(batch[from..to], counts, limits)
  {
    SumOfSlice(batch, from, to, counts);
  }

  // ---------- Optimality ----------

  /** A packed run of batches over a tail of some texts is no longer than any fitting run over all of them. */
  lemma {:induction false} PackedIsShortest(packed: seq<seq<nat>>, other: seq<seq<nat>>, lead: seq<nat>,
                                            counts: seq<Usize>, limits: Limits)
    requires Packed(packed, counts, limits) && AllFit(other, counts, limits)
    requires Flatten(other) == lead + Flatten(packed)
    ensures |packed| <= |other|
    decreases |other|
  {
    if packed != [] {
      assert packed[0] != [];
      assert Flatten(packed) != [];
      assert other != [];
      var mine, theirs, rest := packed[0], other[0], Flatten(packed[1..]);
      assert lead + (mine + rest) == theirs + Flatten(other[1..]);
      if |theirs| > |lead| + |mine| {
        TooMuch(packed, other, lead, counts, limits);
      } else {
        var left := (lead + mine)[|theirs|..];
        var all := (lead + mine) + rest;
        assert all == lead + (mine + rest);
        assert Flatten(other[1..]) == all[|theirs|..] == left + rest;
        PackedIsShortest(packed[1..], other[1..], left, counts, limits);
      }
    }
  }

  /** No fitting first batch reaches past the end of the first packed one. */
  lemma TooMuch(packed: seq<seq<nat>>, other: seq<seq<nat>>, lead: seq<nat>, counts: seq<Usize>, limits: Limits)
    requires Packed(packed, counts, limits) && AllFit(other, counts, limits)
    requires packed != [] && other != []
    requires Flatten(other) == lead + Flatten(packed)
    ensures |other[0]| <= |lead| + |packed[0]|
  {
    var mine, theirs, rest := packed[0], other[0], Flatten(packed[1..]);
    if |theirs| > |lead| + |mine| {
      assert rest != [] && rest[0] == packed[1][0];
      var part := mine + [rest[0]];
      assert lead + (mine + rest) == (lead + part) + rest[1..];
      PrefixOfLonger(lead + part, rest[1..], theirs, Flatten(other[1..]));
      PartFits(theirs, lead, part, counts, limits);
    }
  }

  lemma PartFits(whole: seq<nat>, lead: seq<nat>, part: seq<nat>, counts: seq<Usize>, limits: Limits)
    requires lead + part <= whole && part != [] && Fits(whole, counts, limits)
    ensures Fits(part, counts, limits)
  {
    CutOut(whole, lead, part);
    FitsDownward(whole, |lead|, |lead| + |part|, counts, limits);
  }

  lemma PrefixOfLonger(a: seq<nat>, x: seq<nat>, b: seq<nat>, y: seq<nat>)
    requires a + x == b + y && |a| <= |b|
    ensures a <= b
  {
    assert forall i | 0 <= i < |a| :: a[i] == (a + x)[i] == (b + y)[i] == b[i];
  }

  lemma CutOut(whole: seq<nat>, lead: seq<nat>, part: seq<nat>)
    requires lead + part <= whole
    ensures whole[|lead|..|lead| + |part|] == part
  {
    assert whole[..|lead + part|] == lead + part;
    SliceOfSlice(whole, 0, |lead + part|, |lead|, |lead| + |part|);
    assert (lead + part)[|lead|..] == part;
  }

  // ---------- Planning ----------

  datatype PlannedBatch = PlannedBatch(indices: seq<nat>, tokenCount: nat, largestItemTokens: nat)

  datatype FatalError<E> = WrongCount(got: nat, expected: nat) | TooLarge(failure: E) | Failure(failure: E)
    | NoVector(index: nat)

  datatype Outcome<T, E> = Done(value: T) | NeedsSmallerInput(measuredTokens: Usize) | Fatal(error: FatalError<E>)

  function Lists(batches: seq<PlannedBatch>): (r: seq<seq<nat>>)
    ensures |r| == |batches| && forall i | 0 <= i < |r| :: r[i] == batches[i].indices
  {
    seq(|batches|, i requires 0 <= i < |batches| => batches[i].indices)
  }

  /** The batch's own figures are those of its texts. */
  predicate Measured(batch: PlannedBatch, counts: seq<Usize>) {
    && (forall i | 0 <= i < |batch.indices| :: batch.indices[i] < |counts|)
    && batch.tokenCount == SaturatingAdd(Sum(batch.indices, counts), 0)
    && batch.largestItemTokens == Largest(batch.indices, counts)
  }

  /** The first oversized count, if there is one. */
  ghost predicate FirstOversized(count: Usize, counts: seq<Usize>, limits: Limits) {
    exists k | 0 <= k < |counts| ::
      counts[k] == count && limits.Oversized(count) && forall j | 0 <= j < k :: !limits.Oversized(counts[j])
  }

  method PlanBatches(counts: seq<Usize>, limits: Limits) returns (plan: Outcome<seq<PlannedBatch>, ()>)
    ensures plan.Done? <==> forall k | 0 <= k < |counts| :: !limits.Oversized(counts[k])
    ensures plan.NeedsSmallerInput? ==> FirstOversized(plan.measuredTokens, counts, limits)
    ensures !plan.Fatal?
    ensures plan.Done? ==>
      && Flatten(Lists(plan.value)) == Span(0, |counts|)
      && Packed(Lists(plan.value), counts, limits)
      && (forall k | 0 <= k < |plan.value| :: Measured(plan.value[k], counts))
    ensures plan.Done? ==>
      forall other: seq<seq<nat>> | Flatten(other) == Span(0, |counts|) && AllFit(other, counts, limits) ::
      |plan.value| <= |other|
  {
    for k := 0 to |counts|
      invariant forall j | 0 <= j < k :: !limits.Oversized(counts[j])
    {
      if limits.Oversized(counts[k]) {
        return NeedsSmallerInput(counts[k]);
      }
    }
    var batches := Pack(counts, limits);
    forall other: seq<seq<nat>> | Flatten(other) == Span(0, |counts|) && AllFit(other, counts, limits)
      ensures |batches| <= |other|
    {
      assert [] + Flatten(Lists(batches)) == Flatten(Lists(batches));
      PackedIsShortest(Lists(batches), other, [], counts, limits);
    }
    plan := Done(batches);
  }

  function NoBatch(): PlannedBatch { PlannedBatch([], 0, 0) }

  function Grown(batch: PlannedBatch, index: nat, tokens: Usize): PlannedBatch {
    PlannedBatch(batch.indices + [index], SaturatingAdd(batch.tokenCount, tokens), Max(batch.largestItemTokens, tokens))
  }

  predicate HasRoom(batch: PlannedBatch, tokens: Usize, limits: Limits) {
    |batch.indices| != limits.ItemLimit()
    && (limits.maxBatch.Some? ==> SaturatingAdd(batch.tokenCount, tokens) <= limits.maxBatch.value)
  }

  /** The closed batches and the open one hold the first `index` texts, packed and measured. */
  ghost predicate Packing(batches: seq<PlannedBatch>, current: PlannedBatch, index: nat, counts: seq<Usize>,
                          limits: Limits) {
    && Flatten(Lists(batches)) + current.indices == Span(0, index)
    && Measured(current, counts)
    && (forall k | 0 <= k < |batches| :: Measured(batches[k], counts))
    && (current.indices == [] ==> batches == [])
    && (current.indices != [] ==> Packed(Lists(batches) + [current.indices], counts, limits))
  }

  method Pack(counts: seq<Usize>, limits: Limits) returns (batches: seq<PlannedBatch>)
    requires forall k | 0 <= k < |counts| :: !limits.Oversized(counts[k])
    ensures Flatten(Lists(batches)) == Span(0, |counts|)
    ensures Packed(Lists(batches), counts, limits)
    ensures forall k | 0 <= k < |batches| :: Measured(batches[k], counts)
  {
    batches := [];
    var current := NoBatch();
    for index := 0 to |counts|
      invariant Packing(batches, current, index, counts, limits)
    {
      var exceedsItems := |current.indices| == limits.ItemLimit();
      var exceedsTokens := limits.maxBatch.Some?
        && SaturatingAdd(current.tokenCount, counts[index]) > limits.maxBatch.value;
      if current.indices != [] && (exceedsItems || exceedsTokens) {
        Closed(batches, current, index, counts, limits);
        batches := batches + [current];
        current := NoBatch();
      } else {
        Extended(batches, current, index, counts, limits);
      }
      current := Grown(current, index, counts[index]);
    }
    if current.indices != [] {
      FlattenAppend(Lists(batches), current.indices);
      assert Lists(batches + [current]) == Lists(batches) + [current.indices];
      batches := batches + [current];
    }
  }

  lemma GrownMeasured(batch: PlannedBatch, index: nat, counts: seq<Usize>)
    requires index < |counts| && Measured(batch, counts)
    ensures Measured(Grown(batch, index, counts[index]), counts)
  {
    assert (batch.indices + [index])[..|batch.indices|] == batch.indices;
  }

  /** A text fits behind a batch exactly when the running figures leave room for it. */
  lemma RoomIsFit(batch: PlannedBatch, index: nat, counts: seq<Usize>, limits: Limits)
    requires index < |counts| && Measured(batch, counts) && !limits.Oversized(counts[index])
    requires batch.indices != [] ==> Fits(batch.indices, counts, limits)
    ensures Fits(batch.indices + [index], counts, limits)
      <==> batch.indices == [] || HasRoom(batch, counts[index], limits)
  {
    assert (batch.indices + [index])[..|batch.indices|] == batch.indices;
  }

  lemma PackedGrows(lists: seq<seq<nat>>, batch: seq<nat>, grown: seq<nat>, counts: seq<Usize>, limits: Limits)
    requires batch != [] && batch <= grown && Packed(lists + [batch], counts, limits) && Fits(grown, counts, limits)
    ensures Packed(lists + [grown], counts, limits)
  {
    var before, after := lists + [batch], lists + [grown];
    assert forall k | 0 <= k < |lists| :: after[k] == before[k];
    forall k | 0 <= k < |after| - 1 ensures !Fits(after[k] + [after[k + 1][0]], counts, limits) {
      assert before[k] == after[k];
      assert after[k + 1][0] == before[k + 1][0];
    }
  }

  lemma PackedOpens(lists: seq<seq<nat>>, index: nat, counts: seq<Usize>, limits: Limits)
    requires lists != [] && Packed(lists, counts, limits) && Fits([index], counts, limits)
    requires !Fits(lists[|lists| - 1] + [index], counts, limits)
    ensures Packed(lists + [[index]], counts, limits)
  {
    var after := lists + [[index]];
    assert forall k | 0 <= k < |lists| :: after[k] == lists[k];
  }

  lemma ClosedPacked(lists: seq<seq<nat>>, current: PlannedBatch, index: nat, counts: seq<Usize>, limits: Limits)
    requires index < |counts| && !limits.Oversized(counts[index]) && Measured(current, counts)
    requires lists != [] && lists[|lists| - 1] == current.indices && Packed(lists, counts, limits)
    requires !HasRoom(current, counts[index], limits)
    ensures Packed(lists + [[index]], counts, limits)
  {
    RoomIsFit(current, index, counts, limits);
    RoomIsFit(NoBatch(), index, counts, limits);
    assert [] + [index] == [index];
    PackedOpens(lists, index, counts, limits);
  }

  /** Closing a batch that has no room keeps the packing, with the next text alone in a new batch. */
  lemma Closed(batches: seq<PlannedBatch>, current: PlannedBatch, index: nat, counts: seq<Usize>, limits: Limits)
    requires index < |counts| && !limits.Oversized(counts[index]) && Packing(batches, current, index, counts, limits)
    requires current.indices != [] && !HasRoom(current, counts[index], limits)
    ensures Packing(batches + [current], Grown(NoBatch(), index, counts[index]), index + 1, counts, limits)
  {
    var lists, next := Lists(batches) + [current.indices], Grown(NoBatch(), index, counts[index]);
    assert next.indices == [index];
    ClosedSpan(batches, current, index);
    ClosedPacked(lists, current, index, counts, limits);
    GrownMeasured(NoBatch(), index, counts);
  }

  lemma ClosedSpan(batches: seq<PlannedBatch>, current: PlannedBatch, index: nat)
    requires Flatten(Lists(batches)) + current.indices == Span(0, index)
    ensures Lists(batches + [current]) == Lists(batches) + [current.indices]
    ensures Flatten(Lists(batches + [current])) + [index] == Span(0, index + 1)
  {
    FlattenAppend(Lists(batches), current.indices);
    assert Lists(batches + [current]) == Lists(batches) + [current.indices];
    assert Span(0, index + 1) == Span(0, index) + [index];
  }

  /** So does adding the text to a batch that has room. */
  lemma Extended(batches: seq<PlannedBatch>, current: PlannedBatch, index: nat, counts: seq<Usize>, limits: Limits)
    requires index < |counts| && !limits.Oversized(counts[index]) && Packing(batches, current, index, counts, limits)
    requires current.indices == [] || HasRoom(current, counts[index], limits)
    ensures Packing(batches, Grown(current, index, counts[index]), index + 1, counts, limits)
  {
    var lists, grown := Lists(batches), current.indices + [index];
    if current.indices != [] { assert (lists + [current.indices])[|lists|] == current.indices; }
    RoomIsFit(current, index, counts, limits);
    if current.indices != [] {
      PackedGrows(lists, current.indices, grown, counts, limits);
    }
    GrownMeasured(current, index, counts);
    assert Span(0, index + 1) == Span(0, index) + [index];
  }
}
