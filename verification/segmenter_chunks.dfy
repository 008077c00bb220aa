/** Segmenting a document: which chunks are kept, which are split, and what the parts say of themselves. */
module SegmenterChunks {
  import opened Prelude
  import opened Utf8
  import opened Segmenter

  /** The key of a chunk, or of one part of a split chunk. */
  datatype StableKey = Logical(key: string) | PartOf(parent: StableKey, index: nat, count: nat)

  datatype Chunk = Chunk(key: StableKey, startByte: nat, endByte: nat, startLine: nat, endLine: nat, content: Bytes)

  function NewlineCount(s: Bytes): nat {
    if s == [] then 0 else NewlineCount(s[..|s| - 1]) + if s[|s| - 1] == NEWLINE then 1 else 0
  }

  function Part(chunk: Chunk, ranges: seq<Range>, i: nat): Chunk
    requires i < |ranges| && ranges[i].start <= ranges[i].end <= |chunk.content|
  {
    var content := chunk.content[ranges[i].start..ranges[i].end];
    var startLine := chunk.startLine + NewlineCount(chunk.content[..ranges[i].start]);
    Chunk(PartOf(chunk.key, i, |ranges|), chunk.startByte + ranges[i].start, chunk.startByte + ranges[i].end,
      startLine, startLine + NewlineCount(content), content)
  }

  function Parts(chunk: Chunk, ranges: seq<Range>): (r: seq<Chunk>)
    requires forall i | 0 <= i < |ranges| :: ranges[i].start <= ranges[i].end <= |chunk.content|
    ensures |r| == |ranges| && forall i | 0 <= i < |r| :: r[i] == Part(chunk, ranges, i)
  {
    seq(|ranges|, i requires 0 <= i < |ranges| => Part(chunk, ranges, i))
  }

  datatype Segmented = Segmented(chunks: seq<Chunk>, splitCount: nat) | ReserveTooLarge | NoBudget
    | ChunkRejected(key: StableKey, reason: Reason)

  predicate Fits(chunk: Chunk, p: Provider, budget: Usize) {
    p.Tokens(chunk.content) <= budget
  }

  /** The ranges are the segmentation of a chunk that does not fit. */
  ghost predicate SplitInto(chunk: Chunk, p: Provider, budget: Usize, overlap: Usize, ranges: seq<Range>) {
    && Text(chunk.content) && !Fits(chunk, p, budget) && p.PrefixTokens() < budget
    && Segmentation(chunk.content, p, budget, EffectiveOverlap(p, budget, overlap), ranges)
    && (forall i | 0 <= i < |ranges| :: ranges[i].start <= ranges[i].end <= |chunk.content|)
  }

  /** A chunk that fits stays as it is; any other becomes the parts of its segmentation. */
  ghost predicate Becomes(chunk: Chunk, p: Provider, budget: Usize, overlap: Usize, parts: seq<Chunk>) {
    (Fits(chunk, p, budget) && parts == [chunk])
    || exists ranges | SplitInto(chunk, p, budget, overlap, ranges) :: parts == Parts(chunk, ranges)
  }

  /** Why a chunk could not be split. */
  ghost predicate Unsplittable(chunk: Chunk, p: Provider, budget: Usize, reason: Reason) {
    && Text(chunk.content) && !Fits(chunk, p, budget)
    && match reason
       case EmptyContent => chunk.content == []
       case PrefixTooLarge => chunk.content != [] && p.PrefixTokens() >= budget
       case ScalarTooLarge => p.PrefixTokens() < budget && exists i :: ScalarMisfit(chunk.content, p, budget, i)
  }

  method SegmentChunk(chunk: Chunk, p: Provider, budget: Usize, overlap: Usize)
    returns (parts: seq<Chunk>, rejected: Option<Reason>)
    requires Text(chunk.content)
    ensures rejected.None? ==> parts != [] && Becomes(chunk, p, budget, overlap, parts)
    ensures rejected.Some? ==> Unsplittable(chunk, p, budget, rejected.value)
  {
    if p.Tokens(chunk.content) <= budget {
      return [chunk], None;
    }
    var split := SplitChunk(chunk.content, p, budget, overlap);
    match split {
      case Rejected(reason) => return [], Some(reason);
      case Ranges(ranges) =>
        NoGaps(chunk.content, p, budget, EffectiveOverlap(p, budget, overlap), ranges);
        assert SplitInto(chunk, p, budget, overlap, ranges);
        return Parts(chunk, ranges), None;
    }
  }

  ghost predicate AllBecome(chunks: seq<Chunk>, p: Provider, budget: Usize, overlap: Usize, groups: seq<seq<Chunk>>) {
    |groups| == |chunks|
      && forall k | 0 <= k < |chunks| :: groups[k] != [] && Becomes(chunks[k], p, budget, overlap, groups[k])
  }

  /** All chunks in order, each as it is or in parts; the count says how many parts were added. */
  ghost predicate SegmentedInto(chunks: seq<Chunk>, p: Provider, budget: Usize, overlap: Usize,
                                groups: seq<seq<Chunk>>, r: Segmented)
    requires r.Segmented?
  {
    AllBecome(chunks, p, budget, overlap, groups) && r.chunks == Flatten(groups)
      && |r.chunks| == |chunks| + r.splitCount
  }

  /** The result names a chunk that cannot be split, and why. */
  ghost predicate RejectedFor(chunks: seq<Chunk>, p: Provider, budget: Usize, r: Segmented) {
    r.ChunkRejected?
      && exists k | 0 <= k < |chunks| :: r.key == chunks[k].key && Unsplittable(chunks[k], p, budget, r.reason)
  }

  lemma AllBecomeGrows(chunks: seq<Chunk>, k: nat, p: Provider, budget: Usize, overlap: Usize,
                       groups: seq<seq<Chunk>>, parts: seq<Chunk>)
    requires k < |chunks| && AllBecome(chunks[..k], p, budget, overlap, groups)
    requires parts != [] && Becomes(chunks[k], p, budget, overlap, parts)
    ensures AllBecome(chunks[..k + 1], p, budget, overlap, groups + [parts])
  {
    var more, after := chunks[..k + 1], groups + [parts];
    forall j | 0 <= j < |more| ensures after[j] != [] && Becomes(more[j], p, budget, overlap, after[j]) {
      if j < k {
        assert more[j] == chunks[..k][j] && after[j] == groups[j];
      } else {
        assert more[j] == chunks[k] && after[j] == parts;
      }
    }
  }

  method SegmentChunks(chunks: seq<Chunk>, p: Provider, overlap: Usize, limit: Option<Usize>)
    returns (r: Segmented, ghost groups: seq<seq<Chunk>>)
    requires forall k | 0 <= k < |chunks| :: Text(chunks[k].content)
    ensures limit.None? ==> r == Segmented(chunks, 0)
    ensures limit.Some? && limit.value < p.reserved ==> r == ReserveTooLarge
    ensures limit.Some? && limit.value == p.reserved ==> r == NoBudget
    ensures limit.Some? && r.Segmented? ==>
      limit.value > p.reserved && SegmentedInto(chunks, p, limit.value - p.reserved, overlap, groups, r)
    ensures limit.Some? && limit.value > p.reserved && !r.Segmented? ==>
      RejectedFor(chunks, p, limit.value - p.reserved, r)
  {
    groups := [];
    if limit.None? {
      return Segmented(chunks, 0), groups;
    }
    if limit.value < p.reserved {
      return ReserveTooLarge, groups;
    }
    var budget: Usize := limit.value - p.reserved;
    if budget == 0 {
      return NoBudget, groups;
    }
    var segments: seq<Chunk>, splitCount: nat := [], 0;
    for k := 0 to |chunks|
      invariant AllBecome(chunks[..k], p, budget, overlap, groups)
      invariant segments == Flatten(groups) && |segments| == k + splitCount
    {
      var parts, rejected := SegmentChunk(chunks[k], p, budget, overlap);
      if rejected.Some? {
        return ChunkRejected(chunks[k].key, rejected.value), groups;
      }
      splitCount := splitCount + (|parts| - 1);
      segments := segments + parts;
      FlattenAppend(groups, parts);
      AllBecomeGrows(chunks, k, p, budget, overlap, groups, parts);
      groups := groups + [parts];
    }
    assert chunks[..|chunks|] == chunks;
    r := Segmented(segments, splitCount);
  }

  // ---------- What the parts say of themselves ----------

  /** The content joined from parts that know where they start, each without what is already there. */
  function Joined(parts: seq<Chunk>, origin: nat): Bytes {
    if parts == [] then []
    else
      var known, last := Joined(parts[..|parts| - 1], origin), parts[|parts| - 1];
      known + last.content[Min(SaturatingSub(origin + |known|, last.startByte), |last.content|)..]
  }

  ghost predicate PlacedAs(part: Chunk, chunk: Chunk, range: Range) {
    && range.start <= range.end <= |chunk.content|
    && part.startByte == chunk.startByte + range.start && part.content == chunk.content[range.start..range.end]
  }

  lemma {:induction false} JoinedIsRebuilt(chunk: Chunk, ranges: seq<Range>, parts: seq<Chunk>)
    requires |parts| == |ranges| && forall i | 0 <= i < |ranges| :: PlacedAs(parts[i], chunk, ranges[i])
    requires forall i | 0 <= i < |ranges| :: ranges[i].start <= ranges[i].end <= |chunk.content|
    ensures Joined(parts, chunk.startByte) == Rebuilt(chunk.content, ranges)
  {
    if parts != [] {
      var n := |parts| - 1;
      JoinedIsRebuilt(chunk, ranges[..n], parts[..n]);
      var known, part, range := Rebuilt(chunk.content, ranges[..n]), parts[n], ranges[n];
      JoinStep(chunk, range, part, |known|);
      assert Joined(parts, chunk.startByte)
        == known + part.content[Min(SaturatingSub(chunk.startByte + |known|, part.startByte), |part.content|)..];
    }
  }

  lemma JoinStep(chunk: Chunk, range: Range, part: Chunk, known: nat)
    requires PlacedAs(part, chunk, range)
    ensures part.content[Min(SaturatingSub(chunk.startByte + known, part.startByte), |part.content|)..]
         == chunk.content[range.start..range.end][Min(SaturatingSub(known, range.start), range.end - range.start)..]
  {}

  lemma SplitHoldsContent(chunk: Chunk, p: Provider, budget: Usize, overlap: Usize, ranges: seq<Range>)
    requires SplitInto(chunk, p, budget, overlap, ranges)
    ensures Joined(Parts(chunk, ranges), chunk.startByte) == chunk.content
  {
    SegmentsRebuildText(chunk.content, p, budget, EffectiveOverlap(p, budget, overlap), ranges);
    assert forall i | 0 <= i < |ranges| :: PlacedAs(Parts(chunk, ranges)[i], chunk, ranges[i]);
    JoinedIsRebuilt(chunk, ranges, Parts(chunk, ranges));
  }

  lemma AloneHoldsContent(chunk: Chunk)
    ensures Joined([chunk], chunk.startByte) == chunk.content
  {
    assert [chunk][..0] == [];
  }

  /** Whether a chunk was split or not, its parts hold its content, whole and in order. */
  lemma PartsHoldContent(chunk: Chunk, p: Provider, budget: Usize, overlap: Usize, parts: seq<Chunk>)
    requires Becomes(chunk, p, budget, overlap, parts)
    ensures Joined(parts, chunk.startByte) == chunk.content
  {
    AloneHoldsContent(chunk);
    forall ranges | SplitInto(chunk, p, budget, overlap, ranges)
      ensures Joined(Parts(chunk, ranges), chunk.startByte) == chunk.content
    {
      SplitHoldsContent(chunk, p, budget, overlap, ranges);
    }
  }

  /** Every part is within the budget once the provider has prepared it. */
  lemma PartsFit(chunk: Chunk, p: Provider, budget: Usize, overlap: Usize, parts: seq<Chunk>, i: nat)
    requires Becomes(chunk, p, budget, overlap, parts) && Monotone(p, chunk.content) && i < |parts|
    ensures Fits(parts[i], p, budget)
  {
    if !(Fits(chunk, p, budget) && parts == [chunk]) {
      var ranges :| SplitInto(chunk, p, budget, overlap, ranges) && parts == Parts(chunk, ranges);
      RangeInChain(chunk.content, p, budget, EffectiveOverlap(p, budget, overlap), ranges, i);
      SegmentsFit(chunk.content, p, budget, ranges[i]);
    }
  }

  lemma {:induction false} NewlinesAdd(a: Bytes, b: Bytes)
    ensures NewlineCount(a + b) == NewlineCount(a) + NewlineCount(b)
  {
    if b == [] {
      assert a + b == a;
    } else {
      NewlinesAdd(a, b[..|b| - 1]);
      assert (a + b)[..|a + b| - 1] == a + b[..|b| - 1];
    }
  }

  lemma PartPlaced(chunk: Chunk, range: Range, part: Chunk)
    requires range.start <= range.end <= |chunk.content|
    requires part.content == chunk.content[range.start..range.end]
    requires part.startLine == chunk.startLine + NewlineCount(chunk.content[..range.start])
    requires part.endLine == part.startLine + NewlineCount(part.content)
    ensures part.endLine == chunk.startLine + NewlineCount(chunk.content[..range.end])
  {
    NewlinesAdd(chunk.content[..range.start], part.content);
    assert chunk.content[..range.start] + part.content == chunk.content[..range.end];
  }

  /** Parts are placed in the file as their bytes are: positions by length, lines by newlines passed. */
  lemma PartsArePlaced(chunk: Chunk, ranges: seq<Range>, i: nat)
    requires Gapless(ranges, |chunk.content|) && i < |ranges| && ranges[|ranges| - 1].end == |chunk.content|
    ensures var part := Parts(chunk, ranges)[i];
      && part.endByte == part.startByte + |part.content|
      && part.startByte <= part.endByte <= chunk.startByte + |chunk.content|
      && part.endLine == chunk.startLine + NewlineCount(chunk.content[..part.endByte - chunk.startByte])
      && (i == 0 ==> part.startByte == chunk.startByte && part.startLine == chunk.startLine)
      && (i == |ranges| - 1 ==>
        part.endByte == chunk.startByte + |chunk.content|
          && part.endLine == chunk.startLine + NewlineCount(chunk.content))
  {
    PartPlaced(chunk, ranges[i], Parts(chunk, ranges)[i]);
    assert chunk.content[..|chunk.content|] == chunk.content;
  }

  /** Under a monotone counter a chunk is turned away exactly when it is too long and has no content,
      no room behind the prefix, or a scalar that does not fit. */
  lemma RejectedOnlyWhenUnsplittable(chunk: Chunk, p: Provider, budget: Usize, overlap: Usize, parts: seq<Chunk>,
                                     reason: Reason)
    requires Becomes(chunk, p, budget, overlap, parts) && Monotone(p, chunk.content)
    ensures !Unsplittable(chunk, p, budget, reason)
  {
    if !Fits(chunk, p, budget) {
      var ranges :| SplitInto(chunk, p, budget, overlap, ranges) && parts == Parts(chunk, ranges);
      var s, effective := chunk.content, EffectiveOverlap(p, budget, overlap);
      NoGaps(s, p, budget, effective, ranges);
      forall i: nat | i < |s| && Boundary(s, i) ensures !ScalarMisfit(s, p, budget, i) {
        EveryScalarFits(s, p, budget, effective, ranges, i);
      }
    }
  }
}
