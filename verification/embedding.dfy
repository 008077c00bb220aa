/** Sending planned batches to an embedding provider, halving the ones it finds too large. */
module Embedding {
  import opened Prelude
  import opened Batcher

  /** What a provider may answer: vectors, a refusal on capacity grounds, or another failure. */
  datatype Response<V, E> = Vectors(vectors: seq<V>) | Refused(failure: E) | Failed(failure: E)

  datatype Call<V, E> = Call(indices: seq<nat>, response: Response<V, E>)

  datatype Entry = Entry(indices: seq<nat>, depth: nat)

  function TextsAt<T>(texts: seq<T>, indices: seq<nat>): (r: seq<T>)
    requires forall i | 0 <= i < |indices| :: indices[i] < |texts|
    ensures |r| == |indices| && forall i | 0 <= i < |r| :: r[i] == texts[indices[i]]
  {
    seq(|indices|, i requires 0 <= i < |indices| => texts[indices[i]])
  }

  function Pending(queue: seq<Entry>): seq<nat> {
    if queue == [] then [] else queue[0].indices + Pending(queue[1..])
  }

  function Pow2(n: nat): nat { if n == 0 then 1 else 2 * Pow2(n - 1) }

  // ---------- The record of a run ----------

  /** The call was answered with as many vectors as it had texts. */
  predicate Answered<V, E>(call: Call<V, E>) {
    call.response.Vectors? && |call.response.vectors| == |call.indices|
  }

  /** The texts that the answered calls delivered, in the order of the calls. */
  ghost function Delivered<V, E>(calls: seq<Call<V, E>>): seq<nat> {
    if calls == [] then []
    else Delivered(calls[..|calls| - 1]) + (if Answered(calls[|calls| - 1]) then calls[|calls| - 1].indices else [])
  }

  ghost function DeliveredVectors<V, E>(calls: seq<Call<V, E>>): (r: seq<V>)
    ensures |r| == |Delivered(calls)|
  {
    if calls == [] then []
    else
      var last := calls[|calls| - 1];
      DeliveredVectors(calls[..|calls| - 1]) + if Answered(last) then last.response.vectors else []
  }

  /** Each call asks, in order, for the texts that come right after those delivered so far, and the
      provider's answer is recorded. */
  ghost predicate Faithful<T, V, E>(calls: seq<Call<V, E>>, texts: seq<T>, provider: (nat, seq<T>) -> Response<V, E>) {
    calls == []
    || (var earlier, last := calls[..|calls| - 1], calls[|calls| - 1];
        var done := |Delivered(earlier)|;
        && Faithful(earlier, texts, provider)
        && last.indices != [] && done + |last.indices| <= |texts|
        && last.indices == Span(done, done + |last.indices|)
        && last.response == provider(|earlier|, TextsAt(texts, last.indices)))
  }

  // ---------- The state of a run ----------

  /** The filled slots are a prefix and hold the given vectors. */
  ghost predicate FilledPrefix<V>(slots: seq<Option<V>>, values: seq<V>) {
    && |values| <= |slots|
    && (forall i | 0 <= i < |values| :: slots[i] == Some(values[i]))
    && (forall i | |values| <= i < |slots| :: slots[i].None?)
  }

  /** The queue holds, in order, exactly the texts without a vector; every slot before them is filled
      with the vector that was returned for its text. */
  ghost predicate Progress<V>(slots: seq<Option<V>>, queue: seq<Entry>, values: seq<V>) {
    && FilledPrefix(slots, values)
    && Pending(queue) == Span(|values|, |slots|)
  }

  /** How often an entry was halved bounds how many texts it can hold. */
  predicate Halved(entry: Entry, limit: nat) {
    && entry.indices != [] && limit >= 1
    && (|entry.indices| - 1) * Pow2(entry.depth) <= limit - 1
    && (entry.depth > 0 ==> Pow2(entry.depth - 1) <= limit - 1)
    && entry.depth <= MAX_CAPACITY_RETRY_DEPTH
  }

  ghost predicate AllHalved(queue: seq<Entry>, limit: nat) {
    forall k | 0 <= k < |queue| :: Halved(queue[k], limit)
  }

  /** Whatever happens next, the calls made and those the queue can still need stay within the bound. */
  ghost predicate Affordable(queue: seq<Entry>, calls: nat, bound: int) {
    calls + 2 * |Pending(queue)| <= bound + |queue|
  }

  lemma {:induction false} EachEntryHasText(queue: seq<Entry>, limit: nat)
    requires AllHalved(queue, limit)
    ensures |queue| <= |Pending(queue)|
  {
    if queue != [] {
      EachEntryHasText(queue[1..], limit);
      assert Halved(queue[0], limit);
    }
  }

  lemma HalfScaled(k: nat, n: nat, p: nat)
    requires 1 <= k && 2 * (k - 1) <= n - 1
    ensures (k - 1) * (2 * p) <= (n - 1) * p
  {
    Scaled(2 * (k - 1), n - 1, p);
    assert (k - 1) * (2 * p) == (2 * (k - 1)) * p;
  }

  lemma Scaled(a: nat, b: nat, p: nat)
    requires a <= b
    ensures a * p <= b * p
  {}

  lemma SplitHalved(entry: Entry, part: seq<nat>, limit: nat)
    requires Halved(entry, limit) && entry.depth < MAX_CAPACITY_RETRY_DEPTH && |entry.indices| > 1
    requires 0 < |part| <= |entry.indices| - |entry.indices| / 2
    ensures Halved(Entry(part, entry.depth + 1), limit)
  {
    var n, p := |entry.indices|, Pow2(entry.depth);
    HalfScaled(|part|, n, p);
    Scaled(1, n - 1, p);
    assert Pow2(entry.depth + 1) == 2 * p;
  }

  /** Replacing an entry by its halves leaves the texts in the queue as they were. */
  lemma SplitKeepsPending(entry: Entry, rest: seq<Entry>, middle: nat)
    requires middle <= |entry.indices|
    ensures Pending([Entry(entry.indices[..middle], entry.depth + 1),
                     Entry(entry.indices[middle..], entry.depth + 1)] + rest)
         == Pending([entry] + rest)
  {
    var left, right := Entry(entry.indices[..middle], entry.depth + 1), Entry(entry.indices[middle..], entry.depth + 1);
    assert ([left, right] + rest)[1..] == [right] + rest;
    assert ([right] + rest)[1..] == rest;
    assert ([entry] + rest)[1..] == rest;
    assert left.indices + (right.indices + Pending(rest)) == (left.indices + right.indices) + Pending(rest);
    assert left.indices + right.indices == entry.indices;
  }

  // ---------- Embedding ----------

  function Counts<T>(texts: seq<T>, tokens: T -> Usize): (r: seq<Usize>)
    ensures |r| == |texts| && forall i | 0 <= i < |r| :: r[i] == tokens(texts[i])
  {
    seq(|texts|, i requires 0 <= i < |texts| => tokens(texts[i]))
  }

  /** One text, asked for on its own, was refused. */
  ghost predicate SingleRefused<T, V, E>(calls: seq<Call<V, E>>, texts: seq<T>, tokens: T -> Usize, measured: Usize) {
    && calls != []
    && calls[|calls| - 1].response.Refused?
    && |calls[|calls| - 1].indices| == 1
    && calls[|calls| - 1].indices[0] < |texts|
    && measured == tokens(texts[calls[|calls| - 1].indices[0]])
  }

  method QueueOf(planned: seq<PlannedBatch>) returns (queue: seq<Entry>)
    ensures |queue| == |planned| && forall k | 0 <= k < |queue| :: queue[k] == Entry(planned[k].indices, 0)
  {
    queue := [];
    for k := 0 to |planned|
      invariant |queue| == k && forall j | 0 <= j < k :: queue[j] == Entry(planned[j].indices, 0)
    {
      queue := queue + [Entry(planned[k].indices, 0)];
    }
  }

  lemma {:induction false} PendingIsFlat(queue: seq<Entry>, lists: seq<seq<nat>>)
    requires |queue| == |lists| && forall k | 0 <= k < |queue| :: queue[k].indices == lists[k]
    ensures Pending(queue) == Flatten(lists)
  {
    if queue != [] { PendingIsFlat(queue[1..], lists[1..]); }
  }

  method Fill<V>(vectors: array<Option<V>>, indices: seq<nat>, values: seq<V>, ghost done: nat)
    requires |indices| == |values| && done + |indices| <= vectors.Length && indices == Span(done, done + |indices|)
    modifies vectors
    ensures forall i | 0 <= i < vectors.Length ::
      vectors[i] == if done <= i < done + |values| then Some(values[i - done]) else old(vectors[i])
  {
    for j := 0 to |indices|
      invariant forall i | 0 <= i < vectors.Length ::
        vectors[i] == if done <= i < done + j then Some(values[i - done]) else old(vectors[i])
    {
      vectors[indices[j]] := Some(values[j]);
    }
  }

  ghost predicate FilledFrom<V>(filled: seq<Option<V>>, slots: seq<Option<V>>, done: nat, values: seq<V>) {
    && |filled| == |slots|
    && forall i | 0 <= i < |slots| ::
         filled[i] == if done <= i < done + |values| then Some(values[i - done]) else slots[i]
  }

  lemma PrefixGrows<V>(slots: seq<Option<V>>, filled: seq<Option<V>>, values: seq<V>, more: seq<V>)
    requires FilledPrefix(slots, values) && |values| + |more| <= |slots|
    requires FilledFrom(filled, slots, |values|, more)
    ensures FilledPrefix(filled, values + more)
  {}

  lemma DeliveredGrows<V, E>(calls: seq<Call<V, E>>, call: Call<V, E>)
    requires Answered(call)
    ensures Delivered(calls + [call]) == Delivered(calls) + call.indices
    ensures DeliveredVectors(calls + [call]) == DeliveredVectors(calls) + call.response.vectors
  {
    assert (calls + [call])[..|calls|] == calls;
  }

  /** After an answered call the filled slots are still a prefix and the queue still the rest. */
  lemma AnswerKeepsProgress<V>(slots: seq<Option<V>>, filled: seq<Option<V>>, entry: Entry, rest: seq<Entry>,
                               values: seq<V>, more: seq<V>)
    requires Progress(slots, [entry] + rest, values) && |more| == |entry.indices|
    requires FilledFrom(filled, slots, |values|, more)
    ensures Progress(filled, rest, values + more)
  {
    FrontIsNext(slots, entry, rest, values);
    PrefixGrows(slots, filled, values, more);
    SpanTail(|values|, |more|, |slots|, entry.indices, Pending(rest));
  }

  lemma SpanTail(from: nat, length: nat, to: nat, head: seq<nat>, tail: seq<nat>)
    requires from + length <= to && |head| == length && head + tail == Span(from, to)
    ensures tail == Span(from + length, to)
  {
    assert tail == (head + tail)[length..];
  }

  /** The entry at the front of the queue asks for the texts right behind the filled slots. */
  lemma FrontIsNext<V>(slots: seq<Option<V>>, entry: Entry, rest: seq<Entry>, values: seq<V>)
    requires Progress(slots, [entry] + rest, values)
    ensures Pending([entry] + rest) == entry.indices + Pending(rest)
    ensures |values| + |entry.indices| <= |slots|
    ensures entry.indices == Span(|values|, |values| + |entry.indices|)
  {
    assert ([entry] + rest)[1..] == rest;
    assert entry.indices == Span(|values|, |slots|)[..|entry.indices|];
  }

  ghost predicate Running<T, V, E>(slots: seq<Option<V>>, queue: seq<Entry>, calls: seq<Call<V, E>>, texts: seq<T>,
                                   provider: (nat, seq<T>) -> Response<V, E>, limit: nat, bound: int) {
    && |slots| == |texts|
    && Progress(slots, queue, DeliveredVectors(calls))
    && Faithful(calls, texts, provider)
    && AllHalved(queue, limit)
    && Affordable(queue, |calls|, bound)
  }

  /** Whatever the answer, the call itself is in order, recorded, and paid for. */
  lemma CallRecorded<T, V, E>(slots: seq<Option<V>>, entry: Entry, rest: seq<Entry>, calls: seq<Call<V, E>>,
                              texts: seq<T>,
                              provider: (nat, seq<T>) -> Response<V, E>, limit: nat, bound: int)
    requires Running(slots, [entry] + rest, calls, texts, provider, limit, bound)
    ensures Halved(entry, limit) && forall i | 0 <= i < |entry.indices| :: entry.indices[i] < |texts|
    ensures var call := Call(entry.indices, provider(|calls|, TextsAt(texts, entry.indices)));
      Faithful(calls + [call], texts, provider)
    ensures |calls| + 1 <= bound
  {
    FrontIsNext(slots, entry, rest, DeliveredVectors(calls));
    TailHalved(entry, rest, limit);
    EachEntryHasText(rest, limit);
    var call := Call(entry.indices, provider(|calls|, TextsAt(texts, entry.indices)));
    assert (calls + [call])[..|calls|] == calls;
  }

  lemma AnswerStep<T, V, E>(slots: seq<Option<V>>, filled: seq<Option<V>>, entry: Entry, rest: seq<Entry>,
                            calls: seq<Call<V, E>>, texts: seq<T>,
                            provider: (nat, seq<T>) -> Response<V, E>, limit: nat, bound: int, call: Call<V, E>)
    requires Running(slots, [entry] + rest, calls, texts, provider, limit, bound)
    requires call.indices == entry.indices && Answered(call) && Faithful(calls + [call], texts, provider)
    requires FilledFrom(filled, slots, |Delivered(calls)|, call.response.vectors)
    ensures Running(filled, rest, calls + [call], texts, provider, limit, bound)
    ensures |Pending(rest)| < |Pending([entry] + rest)|
  {
    AnswerKeepsProgress(slots, filled, entry, rest, DeliveredVectors(calls), call.response.vectors);
    DeliveredGrows(calls, call);
    FrontIsNext(slots, entry, rest, DeliveredVectors(calls));
    TailHalved(entry, rest, limit);
  }

  lemma TailHalved(entry: Entry, rest: seq<Entry>, limit: nat)
    requires AllHalved([entry] + rest, limit)
    ensures Halved(entry, limit) && AllHalved(rest, limit)
  {
    assert ([entry] + rest)[0] == entry;
    assert forall k | 0 <= k < |rest| :: rest[k] == ([entry] + rest)[k + 1];
  }

  lemma SplitStep<T, V, E>(slots: seq<Option<V>>, entry: Entry, rest: seq<Entry>, calls: seq<Call<V, E>>, texts: seq<T>,
                           provider: (nat, seq<T>) -> Response<V, E>, limit: nat, bound: int, call: Call<V, E>,
                               left: Entry, right: Entry)
    requires Running(slots, [entry] + rest, calls, texts, provider, limit, bound)
    requires call.indices == entry.indices && !Answered(call) && Faithful(calls + [call], texts, provider)
    requires entry.depth < MAX_CAPACITY_RETRY_DEPTH && |entry.indices| > 1
    requires left == Entry(entry.indices[..|entry.indices| / 2], entry.depth + 1)
    requires right == Entry(entry.indices[|entry.indices| / 2..], entry.depth + 1)
    ensures Running(slots, [left, right] + rest, calls + [call], texts, provider, limit, bound)
    ensures |Pending([left, right] + rest)| == |Pending([entry] + rest)|
  {
    SplitKeepsPending(entry, rest, |entry.indices| / 2);
    TailHalved(entry, rest, limit);
    SplitHalved(entry, left.indices, limit);
    SplitHalved(entry, right.indices, limit);
    assert (calls + [call])[..|calls|] == calls;
    var queue := [left, right] + rest;
    forall k | 0 <= k < |queue| ensures Halved(queue[k], limit) {
      if k >= 2 { assert queue[k] == rest[k - 2]; }
    }
  }

  /** Writes the vectors of an answered call into their slots. */
  method Accept<T, V, E>(texts: seq<T>, ghost provider: (nat, seq<T>) -> Response<V, E>, vectors: array<Option<V>>,
                         entry: Entry,
                         ghost rest: seq<Entry>, ghost calls: seq<Call<V, E>>, batch: seq<V>, ghost limit: nat,
                             ghost bound: int)
    requires Running(vectors[..], [entry] + rest, calls, texts, provider, limit, bound)
    requires |batch| == |entry.indices| && Faithful(calls + [Call(entry.indices, Vectors(batch))], texts, provider)
    modifies vectors
    ensures Running(vectors[..], rest, calls + [Call(entry.indices, Vectors(batch))], texts, provider, limit, bound)
    ensures |Pending(rest)| < |Pending([entry] + rest)|
  {
    ghost var slots := vectors[..];
    FrontIsNext(slots, entry, rest, DeliveredVectors(calls));
    Fill(vectors, entry.indices, batch, |Delivered(calls)|);
    AnswerStep(slots, vectors[..], entry, rest, calls, texts, provider, limit, bound,
               Call(entry.indices, Vectors(batch)));
  }

  /** Works the queue off from the front; stops at the first answer that halving cannot mend. */
  method DrainQueue<T, V, E>(texts: seq<T>, tokens: T -> Usize, provider: (nat, seq<T>) -> Response<V, E>,
                             start: seq<Entry>, vectors: array<Option<V>>, ghost limit: nat, ghost bound: int)
    returns (stop: Outcome<(), E>, ghost calls: seq<Call<V, E>>)
    requires Running(vectors[..], start, [], texts, provider, limit, bound)
    modifies vectors
    ensures Faithful(calls, texts, provider) && |calls| <= bound
    ensures stop.Done? ==> Progress(vectors[..], [], DeliveredVectors(calls))
    ensures stop.NeedsSmallerInput? ==> SingleRefused(calls, texts, tokens, stop.measuredTokens)
    ensures stop.Fatal? ==> FatalAnswer(calls, stop.error, limit)
  {
    calls := [];
    var queue, attempts := start, 0;
    while queue != []
      invariant Running(vectors[..], queue, calls, texts, provider, limit, bound)
      invariant attempts == |calls|
      decreases |Pending(queue)|, |texts| - |queue|
    {
      var entry := queue[0];
      ghost var slots, before := vectors[..], calls;
      assert queue == [entry] + queue[1..];
      queue := queue[1..];
      CallRecorded(slots, entry, queue, calls, texts, provider, limit, bound);
      var response := provider(attempts, TextsAt(texts, entry.indices));
      ghost var call := Call(entry.indices, response);
      calls := calls + [call];
      attempts := attempts + 1;
      match response {
        case Vectors(batch) =>
          if |batch| != |entry.indices| {
            return Fatal(WrongCount(|batch|, |entry.indices|)), calls;
          }
          Accept(texts, provider, vectors, entry, queue, before, batch, limit, bound);
        case Refused(failure) =>
          if entry.depth >= MAX_CAPACITY_RETRY_DEPTH {
            return Fatal(TooLarge(failure)), calls;
          }
          if |entry.indices| == 1 {
            return NeedsSmallerInput(tokens(texts[entry.indices[0]])), calls;
          }
          var middle := |entry.indices| / 2;
          var left, right := Entry(entry.indices[..middle], entry.depth + 1),
              Entry(entry.indices[middle..], entry.depth + 1);
          SplitStep(slots, entry, queue, before, texts, provider, limit, bound, call, left, right);
          queue := [left, right] + queue;
          EachEntryHasText(queue, limit);
        case Failed(failure) =>
          return Fatal(Failure(failure)), calls;
      }
    }
    return Done(()), calls;
  }

  ghost predicate FatalAnswer<V, E>(calls: seq<Call<V, E>>, error: FatalError<E>, limit: nat) {
    calls != []
    && var last := calls[|calls| - 1];
       match error
       case WrongCount(got, expected) => last.response.Vectors? && got == |last.response.vectors|
         && expected == |last.indices| && got != expected
       case TooLarge(failure) => last.response == Refused(failure) && limit > 128
       case Failure(failure) => last.response == Failed(failure)
       case NoVector(_) => false
  }

  /** Reads the slots; a slot without a vector would be an error. */
  method Collect<V, E>(vectors: array<Option<V>>) returns (result: Outcome<seq<V>, E>)
    ensures (forall i | 0 <= i < vectors.Length :: vectors[i].Some?) ==>
      result.Done? && |result.value| == vectors.Length
        && forall i | 0 <= i < vectors.Length :: vectors[i] == Some(result.value[i])
    ensures (exists i | 0 <= i < vectors.Length :: vectors[i].None?) ==> result.Fatal? && result.error.NoVector?
  {
    var values := [];
    for index := 0 to vectors.Length
      invariant |values| == index && forall i | 0 <= i < index :: vectors[i] == Some(values[i])
    {
      if vectors[index].None? {
        return Fatal(NoVector(index));
      }
      values := values + [vectors[index].value];
    }
    result := Done(values);
  }

  ghost predicate IsPlan(plan: seq<seq<nat>>, counts: seq<Usize>, limits: Limits) {
    Flatten(plan) == Span(0, |counts|) && Packed(plan, counts, limits)
  }

  lemma StartsRunning<T, V, E>(texts: seq<T>, provider: (nat, seq<T>) -> Response<V, E>, slots: seq<Option<V>>,
                               queue: seq<Entry>,
                               plan: seq<seq<nat>>, counts: seq<Usize>, limits: Limits)
    requires |slots| == |texts| == |counts| && forall i | 0 <= i < |slots| :: slots[i].None?
    requires IsPlan(plan, counts, limits)
    requires |queue| == |plan| && forall k | 0 <= k < |queue| :: queue[k] == Entry(plan[k], 0)
    ensures Running(slots, queue, [], texts, provider, limits.ItemLimit(), 2 * |texts| - |plan|)
  {
    PendingIsFlat(queue, plan);
    forall k | 0 <= k < |queue| ensures Halved(queue[k], limits.ItemLimit()) {
      assert Fits(plan[k], counts, limits) && plan[k] != [];
    }
    EachEntryHasText(queue, limits.ItemLimit());
  }

  /** What was delivered is always the first so many texts, in order. */
  lemma {:induction false} DeliveredInOrder<T, V, E>(calls: seq<Call<V, E>>, texts: seq<T>,
                                                     provider: (nat, seq<T>) -> Response<V, E>)
    requires Faithful(calls, texts, provider)
    ensures Delivered(calls) == Span(0, |Delivered(calls)|)
  {
    if calls != [] {
      DeliveredInOrder(calls[..|calls| - 1], texts, provider);
    }
  }

  /** With nothing left in the queue every slot holds a vector, the one returned for its text. */
  lemma NothingMissing<T, V, E>(slots: seq<Option<V>>, calls: seq<Call<V, E>>, texts: seq<T>,
                                provider: (nat, seq<T>) -> Response<V, E>)
    requires |slots| == |texts| && Progress(slots, [], DeliveredVectors(calls)) && Faithful(calls, texts, provider)
    ensures Delivered(calls) == Span(0, |texts|)
    ensures |DeliveredVectors(calls)| == |slots|
    ensures forall i | 0 <= i < |slots| :: slots[i] == Some(DeliveredVectors(calls)[i])
  {
    DeliveredInOrder(calls, texts, provider);
    assert |Span(|Delivered(calls)|, |slots|)| == 0;
  }

  /** Works off a plan; once the queue is drained every slot holds its vector. */
  method EmbedPlan<T, V, E>(texts: seq<T>, limits: Limits, tokens: T -> Usize,
                            provider: (nat, seq<T>) -> Response<V, E>,
                            queue: seq<Entry>, ghost plan: seq<seq<nat>>)
    returns (result: Outcome<seq<V>, E>, ghost calls: seq<Call<V, E>>)
    requires IsPlan(plan, Counts(texts, tokens), limits)
    requires |queue| == |plan| && forall k | 0 <= k < |queue| :: queue[k] == Entry(plan[k], 0)
    ensures Faithful(calls, texts, provider) && |calls| <= 2 * |texts| - |plan|
    ensures result.Done? ==> Delivered(calls) == Span(0, |texts|) && result.value == DeliveredVectors(calls)
    ensures result.NeedsSmallerInput? ==> SingleRefused(calls, texts, tokens, result.measuredTokens)
    ensures result.Fatal? ==> FatalAnswer(calls, result.error, limits.ItemLimit())
  {
    var vectors := new Option<V>[|texts|](_ => None);
    StartsRunning(texts, provider, vectors[..], queue, plan, Counts(texts, tokens), limits);
    var stop: Outcome<(), E>;
    stop, calls := DrainQueue(texts, tokens, provider, queue, vectors, limits.ItemLimit(), 2 * |texts| - |plan|);
    match stop {
      case NeedsSmallerInput(measured) => result := NeedsSmallerInput(measured);
      case Fatal(error) => result := Fatal(error);
      case Done(_) =>
        NothingMissing(vectors[..], calls, texts, provider);
        assert forall i | 0 <= i < vectors.Length :: vectors[i] == vectors[..][i];
        result := Collect(vectors);
        assert result.value == DeliveredVectors(calls);
    }
  }

  /** Vectors for all texts, in order; or why not, with the calls that were made. */
  method EmbedDocuments<T, V, E>(texts: seq<T>, limits: Limits, tokens: T -> Usize,
                                 provider: (nat, seq<T>) -> Response<V, E>)
    returns (result: Outcome<seq<V>, E>, ghost calls: seq<Call<V, E>>, ghost plan: seq<seq<nat>>)
    ensures result.Done? ==> |result.value| == |texts|
    ensures result.NeedsSmallerInput? ==> exists i | 0 <= i < |texts| :: result.measuredTokens == tokens(texts[i])
    ensures result.Fatal? ==> !result.error.NoVector? && (result.error.TooLarge? ==> limits.ItemLimit() > 128)
    ensures Faithful(calls, texts, provider)
    ensures result.Done? ==> Delivered(calls) == Span(0, |texts|) && result.value == DeliveredVectors(calls)
    ensures result.NeedsSmallerInput? ==>
      (calls == [] && FirstOversized(result.measuredTokens, Counts(texts, tokens), limits))
      || SingleRefused(calls, texts, tokens, result.measuredTokens)
    ensures result.Fatal? ==> FatalAnswer(calls, result.error, limits.ItemLimit())
    ensures calls != [] ==> IsPlan(plan, Counts(texts, tokens), limits) && |calls| <= 2 * |texts| - |plan|
  {
    calls, plan := [], [];
    if texts == [] {
      return Done([]), calls, plan;
    }
    var counts := Counts(texts, tokens);
    var planned := PlanBatches(counts, limits);
    if planned.NeedsSmallerInput? {
      return NeedsSmallerInput(planned.measuredTokens), calls, plan;
    }
    plan := Lists(planned.value);
    var queue := QueueOf(planned.value);
    result, calls := EmbedPlan(texts, limits, tokens, provider, queue, plan);
  }
}
