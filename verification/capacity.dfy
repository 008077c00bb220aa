/** The embedding pipeline put together: segment, plan, embed, and lower the ceiling when refused. */
module Capacity {
  import opened Prelude
  import opened Utf8
  import opened Segmenter
  import SegmenterChunks
  import opened Batcher
  import opened Embedding

  type Chunk = SegmenterChunks.Chunk

  const MAX_ADAPTIVE_ATTEMPTS: nat := 8

  // ---------- Limits ----------

  /** The limit the first segmentation works under: the stricter of the input and the batch limit. */
  function InitialLimit(limits: Limits): Option<Usize> {
    var batch := if limits.maxBatch.Some? then Some(SaturatingAdd(limits.maxBatch.value, limits.reserved)) else None;
    if limits.maxInput.Some? && batch.Some? then Some(Min(limits.maxInput.value, batch.value))
    else if limits.maxInput.Some? then limits.maxInput
    else batch
  }

  /** A limit that leaves something for the source is at most the initial one exactly when no text
      within its budget is ever too long for the planner. */
  lemma InitialLimitIsExact(limits: Limits, limit: Usize)
    requires limit > limits.reserved
    ensures WithinInitial(limits, limit)
      <==> forall count: Usize | count <= limit - limits.reserved :: !limits.Oversized(count)
  {
    if !WithinInitial(limits, limit) {
      assert limits.Oversized(limit - limits.reserved);
    }
  }

  predicate WithinInitial(limits: Limits, limit: Usize) {
    InitialLimit(limits).Some? ==> limit <= InitialLimit(limits).value
  }

  datatype Reduction = Reduced(limit: Usize) | SmallestRejected | NotReducible

  function Usable(current: Option<Usize>, measured: Usize, reserved: Usize): nat {
    if current.Some? then SaturatingSub(current.value, reserved) else measured
  }

  function ReducedInputLimit(current: Option<Usize>, measured: Usize, reserved: Usize): Reduction {
    var usable := Usable(current, measured, reserved);
    var next := Min(Min(SaturatingSub(usable, 1), SaturatingSub(measured, 1)), usable / 2);
    if next == 0 then SmallestRejected
    else
      var limit := SaturatingAdd(reserved, next);
      if current.Some? && limit >= current.value then NotReducible else Reduced(limit)
  }

  /** A reduction fails only at the smallest input, never because the ceiling would not come down. What
      it leaves is at most half of what was usable and less than what was measured, and still above the
      reserve, except when a first limit is made up where the reserve takes the whole range. */
  lemma ReductionHalves(current: Option<Usize>, measured: Usize, reserved: Usize)
    ensures var r := ReducedInputLimit(current, measured, reserved);
      && !r.NotReducible?
      && (r.SmallestRejected? <==> Usable(current, measured, reserved) <= 1 || measured <= 1)
      && (r.Reduced? ==>
            && reserved <= r.limit
            && 2 * (r.limit - reserved) <= Usable(current, measured, reserved)
            && r.limit - reserved < measured
            && (current.Some? ==> r.limit < current.value)
            && (reserved < r.limit <==> current.Some? || reserved < MAX_USIZE))
  {}

  // ---------- The adaptive loop ----------

  /** Whose content has to be embedded again, given the limit the chunks were cut under. */
  type Change = (Option<Usize>, Chunk) -> bool

  function ChangedTexts(chunks: seq<Chunk>, limit: Option<Usize>, changed: Change): (r: seq<Bytes>)
    ensures forall t | t in r :: exists c | c in chunks :: t == c.content
  {
    if chunks == [] then []
    else
      var last := chunks[|chunks| - 1];
      ChangedTexts(chunks[..|chunks| - 1], limit, changed) + if changed(limit, last) then [last.content] else []
  }

  /** One turn: the limit, the chunks cut under it, and how embedding the changed ones went. */
  datatype Round<V, E> =
    Round(limit: Option<Usize>, chunks: seq<Chunk>, calls: seq<Call<V, E>>, result: Outcome<seq<V>, E>)

  datatype Final<V, E> =
    | Embedded(chunks: seq<Chunk>, limit: Option<Usize>, vectors: seq<V>)
    | NotSegmented(failure: SegmenterChunks.Segmented)
    | SmallestInputRejected
    | CeilingNotReducible
    | OverCapacity
    | Failed(error: FatalError<E>)

  /** The chunks are the document's chunks, each as it is or split into parts that hold its content. */
  ghost predicate Holds(chunks: seq<Chunk>, document: seq<Chunk>) {
    exists groups: seq<seq<Chunk>> ::
      && |groups| == |document| && Flatten(groups) == chunks
      && forall k | 0 <= k < |document| ::
        SegmenterChunks.Joined(groups[k], document[k].startByte) == document[k].content
  }

  /** The provider refused some changed text on its own; the planner itself found nothing too long. */
  ghost predicate RefusedAlone<V, E>(round: Round<V, E>, p: Provider, changed: Change) {
    round.result.NeedsSmallerInput?
    && SingleRefused(round.calls, ChangedTexts(round.chunks, round.limit, changed), p.Tokens,
                     round.result.measuredTokens)
  }

  ghost predicate RoundsInOrder<V, E>(rounds: seq<Round<V, E>>, document: seq<Chunk>, p: Provider, limits: Limits,
                                      changed: Change) {
    rounds == []
    || (var earlier, last := rounds[..|rounds| - 1], rounds[|rounds| - 1];
        && RoundsInOrder(earlier, document, p, limits, changed)
        && Holds(last.chunks, document)
        && LimitAfter(earlier, limits, last.limit)
        && (last.result.NeedsSmallerInput? ==> RefusedAlone(last, p, changed)))
  }

  /** The limit of the next round: the initial one, then each time what the reduction gives. */
  ghost predicate LimitAfter<V, E>(rounds: seq<Round<V, E>>, limits: Limits, limit: Option<Usize>) {
    if rounds == [] then limit == InitialLimit(limits)
    else
      var last := rounds[|rounds| - 1];
      && last.result.NeedsSmallerInput?
      && limit.Some?
      && ReducedInputLimit(last.limit, last.result.measuredTokens, limits.reserved) == Reduced(limit.value)
  }

  ghost predicate AllMonotone(document: seq<Chunk>, p: Provider) {
    forall k | 0 <= k < |document| :: Text(document[k].content) && Monotone(p, document[k].content)
  }

  lemma {:induction false} InSomeGroup<T>(groups: seq<seq<T>>, x: T) returns (k: nat)
    requires x in Flatten(groups)
    ensures k < |groups| && x in groups[k]
  {
    if x in groups[0] {
      k := 0;
    } else {
      k := InSomeGroup(groups[1..], x);
      k := k + 1;
    }
  }

  /** A budget that some limit within the initial one leaves behind the reserve. */
  predicate BudgetInRange(limits: Limits, budget: Usize) {
    budget > 0 && budget + limits.reserved <= MAX_USIZE && WithinInitial(limits, budget + limits.reserved)
  }

  ghost predicate NoneOversized(chunks: seq<Chunk>, p: Provider, limits: Limits) {
    forall c | c in chunks :: !limits.Oversized(p.Tokens(c.content))
  }

  /** Whatever was cut under such a limit is never too long for the planner. */
  lemma SegmentsPassThePlanner(document: seq<Chunk>, chunks: seq<Chunk>, groups: seq<seq<Chunk>>, p: Provider,
                               limits: Limits, overlap: Usize, budget: Usize)
    requires AllMonotone(document, p) && BudgetInRange(limits, budget) && chunks == Flatten(groups)
    requires SegmenterChunks.AllBecome(document, p, budget, overlap, groups)
    ensures NoneOversized(chunks, p, limits)
  {
    InitialLimitIsExact(limits, budget + limits.reserved);
    forall c | c in chunks ensures !limits.Oversized(p.Tokens(c.content)) {
      var k := InSomeGroup(groups, c);
      var j :| 0 <= j < |groups[k]| && groups[k][j] == c;
      SegmenterChunks.PartsFit(document[k], p, budget, overlap, groups[k], j);
    }
  }

  /** So whatever has changed among it, the planner never asks for smaller input. */
  lemma ChangedTextsPass(chunks: seq<Chunk>, p: Provider, limits: Limits, limit: Option<Usize>, changed: Change,
                         measured: Usize)
    requires NoneOversized(chunks, p, limits)
    ensures !FirstOversized(measured, Counts(ChangedTexts(chunks, limit, changed), p.Tokens), limits)
  {
    var texts := ChangedTexts(chunks, limit, changed);
    forall i | 0 <= i < |texts| ensures !limits.Oversized(p.Tokens(texts[i])) {
      assert texts[i] in texts;
    }
  }

  lemma GroupsHold(document: seq<Chunk>, chunks: seq<Chunk>, groups: seq<seq<Chunk>>, p: Provider, budget: Usize,
                   overlap: Usize)
    requires SegmenterChunks.AllBecome(document, p, budget, overlap, groups) && chunks == Flatten(groups)
    ensures Holds(chunks, document)
  {
    forall k | 0 <= k < |document|
      ensures SegmenterChunks.Joined(groups[k], document[k].startByte) == document[k].content
    {
      SegmenterChunks.PartsHoldContent(document[k], p, budget, overlap, groups[k]);
    }
  }

  function Alone(document: seq<Chunk>): (r: seq<seq<Chunk>>)
    ensures |r| == |document| && forall k | 0 <= k < |r| :: r[k] == [document[k]]
  {
    seq(|document|, k requires 0 <= k < |document| => [document[k]])
  }

  lemma {:induction false} FlattenAlone(document: seq<Chunk>)
    ensures Flatten(Alone(document)) == document
  {
    if document != [] {
      FlattenAlone(document[1..]);
      assert Alone(document)[1..] == Alone(document[1..]);
    }
  }

  lemma DocumentHoldsItself(document: seq<Chunk>)
    ensures Holds(document, document)
  {
    FlattenAlone(document);
    forall k | 0 <= k < |document|
      ensures SegmenterChunks.Joined(Alone(document)[k], document[k].startByte) == document[k].content
    {
      SegmenterChunks.AloneHoldsContent(document[k]);
    }
  }

  /** What a limit may be in any round. */
  ghost predicate LimitInRange(limits: Limits, limit: Option<Usize>) {
    if limit.None? then InitialLimit(limits).None? else WithinInitial(limits, limit.value)
  }

  method SegmentUnder(document: seq<Chunk>, p: Provider, limits: Limits, overlap: Usize, limit: Option<Usize>)
    returns (segmented: SegmenterChunks.Segmented)
    requires AllMonotone(document, p) && p.reserved == limits.reserved && LimitInRange(limits, limit)
    ensures segmented.Segmented? ==> Holds(segmented.chunks, document) && NoneOversized(segmented.chunks, p, limits)
  {
    ghost var groups;
    segmented, groups := SegmenterChunks.SegmentChunks(document, p, overlap, limit);
    SegmentedPasses(document, p, limits, overlap, limit, groups, segmented);
  }

  /** What the segmenter promises, in terms of the planner. */
  lemma SegmentedPasses(document: seq<Chunk>, p: Provider, limits: Limits, overlap: Usize, limit: Option<Usize>,
                        groups: seq<seq<Chunk>>,
                        segmented: SegmenterChunks.Segmented)
    requires AllMonotone(document, p) && p.reserved == limits.reserved && LimitInRange(limits, limit)
    requires limit.None? ==> segmented == SegmenterChunks.Segmented.Segmented(document, 0)
    requires limit.Some? && segmented.Segmented? ==>
      limit.value > p.reserved
        && SegmenterChunks.SegmentedInto(document, p, limit.value - p.reserved, overlap, groups, segmented)
    ensures segmented.Segmented? ==> Holds(segmented.chunks, document) && NoneOversized(segmented.chunks, p, limits)
  {
    if limit.None? {
      UnlimitedPasses(document, p, limits);
    } else if segmented.Segmented? {
      LimitedPasses(document, p, limits, overlap, limit.value - p.reserved, groups, segmented);
    }
  }

  lemma LimitedPasses(document: seq<Chunk>, p: Provider, limits: Limits, overlap: Usize, budget: Usize,
                      groups: seq<seq<Chunk>>,
                      segmented: SegmenterChunks.Segmented)
    requires AllMonotone(document, p) && BudgetInRange(limits, budget)
    requires segmented.Segmented? && SegmenterChunks.SegmentedInto(document, p, budget, overlap, groups, segmented)
    ensures Holds(segmented.chunks, document) && NoneOversized(segmented.chunks, p, limits)
  {
    GroupsHold(document, segmented.chunks, groups, p, budget, overlap);
    SegmentsPassThePlanner(document, segmented.chunks, groups, p, limits, overlap, budget);
  }

  lemma UnlimitedPasses(document: seq<Chunk>, p: Provider, limits: Limits)
    requires InitialLimit(limits).None?
    ensures Holds(document, document) && NoneOversized(document, p, limits)
  {
    DocumentHoldsItself(document);
  }

  /** One round: segment under the limit, embed what changed. */
  method EmbedUnder<V, E>(document: seq<Chunk>, p: Provider, limits: Limits, overlap: Usize, limit: Option<Usize>,
                          changed: Change,
                          provider: (nat, seq<Bytes>) -> Response<V, E>)
    returns (segmented: SegmenterChunks.Segmented, ghost round: Round<V, E>, result: Outcome<seq<V>, E>)
    requires AllMonotone(document, p) && p.reserved == limits.reserved && LimitInRange(limits, limit)
    ensures segmented.Segmented? ==>
      && Holds(segmented.chunks, document)
      && (result.Done? ==> |result.value| == |ChangedTexts(segmented.chunks, limit, changed)|)
    ensures segmented.Segmented? ==>
      && round.limit == limit && round.chunks == segmented.chunks && round.result == result
      && RoundRight(round, document, p, changed, provider)
  {
    result, round := Done([]), Round(limit, [], [], Done([]));
    segmented := SegmentUnder(document, p, limits, overlap, limit);
    if segmented.Segmented? {
      var texts := ChangedTexts(segmented.chunks, limit, changed);
      ghost var calls, plan;
      result, calls, plan := EmbedDocuments(texts, limits, p.Tokens, provider);
      if result.NeedsSmallerInput? {
        ChangedTextsPass(segmented.chunks, p, limits, limit, changed, result.measuredTokens);
      }
      round := Round(limit, segmented.chunks, calls, result);
    }
  }

  /** What a round guarantees: the whole document is in its chunks, every changed text has its vector
      when it is done, and only the provider's refusal of a single text asks for less. */
  ghost predicate RoundRight<V, E>(round: Round<V, E>, document: seq<Chunk>, p: Provider, changed: Change,
                                   provider: (nat, seq<Bytes>) -> Response<V, E>) {
    var texts := ChangedTexts(round.chunks, round.limit, changed);
    && Holds(round.chunks, document)
    && Faithful(round.calls, texts, provider)
    && (round.result.Done? ==> |round.result.value| == |texts| && round.result.value == DeliveredVectors(round.calls))
    && (round.result.NeedsSmallerInput? ==> RefusedAlone(round, p, changed))
  }

  lemma RoundAdded<V, E>(rounds: seq<Round<V, E>>, round: Round<V, E>, document: seq<Chunk>, p: Provider,
                         limits: Limits, changed: Change,
                         provider: (nat, seq<Bytes>) -> Response<V, E>)
    requires RoundsInOrder(rounds, document, p, limits, changed) && LimitAfter(rounds, limits, round.limit)
    requires RoundRight(round, document, p, changed, provider)
    ensures RoundsInOrder(rounds + [round], document, p, limits, changed)
  {
    assert (rounds + [round])[..|rounds|] == rounds;
  }

  lemma ReducedInRange(limits: Limits, limit: Option<Usize>, measured: Usize, next: Usize)
    requires LimitInRange(limits, limit) && ReducedInputLimit(limit, measured, limits.reserved) == Reduced(next)
    ensures LimitInRange(limits, Some(next))
  {
    ReductionHalves(limit, measured, limits.reserved);
  }

  /** The document came through whole, with one vector for every chunk that had changed. */
  ghost predicate EmbeddedWhole<V, E>(final: Final<V, E>, rounds: seq<Round<V, E>>, document: seq<Chunk>,
                                      changed: Change)
    requires final.Embedded?
  {
    && rounds != []
    && var last := rounds[|rounds| - 1];
       && Holds(final.chunks, document)
       && last.limit == final.limit && last.chunks == final.chunks
       && final.vectors == DeliveredVectors(last.calls)
       && |final.vectors| == |ChangedTexts(final.chunks, final.limit, changed)|
  }

  /** The whole of it: at most eight reductions, and a document is either embedded whole or an error says why. */
  method AdaptiveEmbed<V, E>(document: seq<Chunk>, p: Provider, limits: Limits, overlap: Usize, changed: Change,
                             provider: nat -> ((nat, seq<Bytes>) -> Response<V, E>))
    returns (final: Final<V, E>, ghost rounds: seq<Round<V, E>>)
    requires AllMonotone(document, p) && p.reserved == limits.reserved
    ensures RoundsInOrder(rounds, document, p, limits, changed) && |rounds| <= MAX_ADAPTIVE_ATTEMPTS + 1
    ensures final.Embedded? ==> EmbeddedWhole(final, rounds, document, changed)
    ensures final.OverCapacity? ==> |rounds| == MAX_ADAPTIVE_ATTEMPTS + 1
    ensures final.OverCapacity? || final.SmallestInputRejected? ==>
      rounds != [] && RefusedAlone(rounds[|rounds| - 1], p, changed)
    ensures !final.CeilingNotReducible?
  {
    rounds := [];
    var limit, attempts := InitialLimit(limits), 0;
    while true
      invariant attempts == |rounds| <= MAX_ADAPTIVE_ATTEMPTS
      invariant LimitInRange(limits, limit)
      invariant RoundsInOrder(rounds, document, p, limits, changed) && LimitAfter(rounds, limits, limit)
      decreases MAX_ADAPTIVE_ATTEMPTS - attempts
    {
      ghost var round;
      var segmented, result;
      segmented, round, result := EmbedUnder(document, p, limits, overlap, limit, changed, provider(attempts));
      if !segmented.Segmented? {
        return NotSegmented(segmented), rounds;
      }
      RoundAdded(rounds, round, document, p, limits, changed, provider(attempts));
      rounds := rounds + [round];
      if result.Done? {
        return Embedded(segmented.chunks, limit, result.value), rounds;
      }
      if result.Fatal? {
        return Final.Failed(result.error), rounds;
      }
      if attempts >= MAX_ADAPTIVE_ATTEMPTS {
        return OverCapacity, rounds;
      }
      ReductionHalves(limit, result.measuredTokens, limits.reserved);
      var reduction := ReducedInputLimit(limit, result.measuredTokens, limits.reserved);
      if reduction.SmallestRejected? {
        return SmallestInputRejected, rounds;
      }
      if reduction.NotReducible? {
        return CeilingNotReducible, rounds;
      }
      ReducedInRange(limits, limit, result.measuredTokens, reduction.limit);
      limit := Some(reduction.limit);
      attempts := attempts + 1;
    }
  }

  /** Each refusal at least halves the usable budget, and never uses it up. */
  lemma {:induction false} BudgetHalvesEachRound<V, E>(rounds: seq<Round<V, E>>, document: seq<Chunk>, p: Provider,
                                                       limits: Limits, changed: Change)
    requires RoundsInOrder(rounds, document, p, limits, changed) && |rounds| > 0 && InitialLimit(limits).Some?
    ensures rounds[|rounds| - 1].limit.Some?
    ensures SaturatingSub(rounds[|rounds| - 1].limit.value, limits.reserved) * Pow2(|rounds| - 1)
         <= SaturatingSub(InitialLimit(limits).value, limits.reserved)
    ensures |rounds| > 1 ==> rounds[|rounds| - 1].limit.value > limits.reserved
  {
    var n := |rounds|;
    if n > 1 {
      var earlier := rounds[..n - 1];
      BudgetHalvesEachRound(earlier, document, p, limits, changed);
      var previous, last := rounds[n - 2], rounds[n - 1];
      ReductionHalves(previous.limit, previous.result.measuredTokens, limits.reserved);
      Doubled(SaturatingSub(last.limit.value, limits.reserved), SaturatingSub(previous.limit.value, limits.reserved),
              Pow2(n - 2),
        SaturatingSub(InitialLimit(limits).value, limits.reserved));
    }
  }

  lemma Doubled(half: nat, whole: nat, p: nat, bound: nat)
    requires 2 * half <= whole && whole * p <= bound
    ensures half * (2 * p) <= bound
  {
    Scaled(2 * half, whole, p);
    assert half * (2 * p) == (2 * half) * p;
  }

  /** So a usable budget below 256 is always exhausted before the attempts are. */
  lemma {:induction false} SmallBudgetsNeverRunOut<V, E>(rounds: seq<Round<V, E>>, document: seq<Chunk>, p: Provider,
                                                         limits: Limits, changed: Change)
    requires RoundsInOrder(rounds, document, p, limits, changed) && InitialLimit(limits).Some?
    requires SaturatingSub(InitialLimit(limits).value, limits.reserved) < 256
    ensures |rounds| <= MAX_ADAPTIVE_ATTEMPTS
  {
    if |rounds| > 0 {
      SmallBudgetsNeverRunOut(rounds[..|rounds| - 1], document, p, limits, changed);
      BudgetHalvesEachRound(rounds, document, p, limits, changed);
      assert Pow2(8) == 256;
    }
  }
}
