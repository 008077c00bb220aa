/** Splitting texts that are too long for the embedding model at good boundaries, with overlap. */
module Segmenter {
  import opened Prelude
  import opened Strings
  import opened Utf8

  const RETURN: Byte := 13
  const LF_BREAK: Bytes := [10, 10]
  const CRLF_BREAK: Bytes := [13, 10, 13, 10]

  /** A provider as the segmenter sees it: how many tokens a text has, and how a document is prepared. */
  datatype Provider = Provider(count: Bytes -> Usize, prepare: Bytes -> Bytes, reserved: Usize) {
    /** The tokens of a document text as it will be sent. */
    function Tokens(text: Bytes): Usize { count(prepare(text)) }
    function PrefixTokens(): Usize { Tokens([]) }
  }

  /** Part of a text never has more tokens than a longer part around it, sent or raw. */
  ghost predicate Monotone(p: Provider, s: Bytes) {
    && (forall a, b, c, d {:trigger p.Tokens(s[b..c]), p.Tokens(s[a..d])} | 0 <= a <= b <= c <= d <= |s| ::
          p.Tokens(s[b..c]) <= p.Tokens(s[a..d]))
    && (forall a, b, c, d {:trigger p.count(s[b..c]), p.count(s[a..d])} | 0 <= a <= b <= c <= d <= |s| ::
          p.count(s[b..c]) <= p.count(s[a..d]))
  }

  /** Half-open positions in the text. */
  datatype Range = Range(start: nat, end: nat)

  // ---------- The furthest end that fits ----------

  /** All boundaries behind `start`. */
  function Ends(s: Bytes, start: nat): (r: seq<nat>)
    requires Text(s) && start <= |s| && Boundary(s, start)
    ensures start < |s| ==> |r| > 0 && r[|r| - 1] == |s|
    ensures forall i | 0 <= i < |r| :: start < r[i] <= |s| && Boundary(s, r[i])
    ensures |r| > 0 ==> start < |s| && r[0] == After(s, start)
    ensures forall i | 0 <= i < |r| - 1 :: r[i] < |s| && r[i + 1] == After(s, r[i])
    decreases |s| - start
  {
    if start == |s| then [] else [After(s, start)] + Ends(s, After(s, start))
  }

  predicate FitsAt(s: Bytes, start: nat, end: nat, p: Provider, budget: Usize)
    requires start <= end <= |s|
  {
    p.Tokens(s[start..end]) <= budget
  }

  /** `end` fits and one more scalar does not. */
  ghost predicate Furthest(s: Bytes, start: nat, end: nat, p: Provider, budget: Usize)
    requires Text(s)
  {
    && start < end <= |s| && Boundary(s, end)
    && FitsAt(s, start, end, p, budget)
    && (end < |s| ==> !FitsAt(s, start, After(s, end), p, budget))
  }

  method FurthestFittingEnd(s: Bytes, start: nat, p: Provider, budget: Usize) returns (r: nat)
    requires Text(s) && start < |s| && Boundary(s, start)
    ensures r == start ==> !FitsAt(s, start, After(s, start), p, budget)
    ensures r != start ==> Furthest(s, start, r, p, budget)
  {
    var boundaries := Ends(s, start);
    var low, high := 0, |boundaries|;
    while low < high
      invariant low <= high <= |boundaries|
      invariant low > 0 ==> FitsAt(s, start, boundaries[low - 1], p, budget)
      invariant high < |boundaries| ==> !FitsAt(s, start, boundaries[high], p, budget)
    {
      var middle := low + (high - low) / 2;
      if p.Tokens(s[start..boundaries[middle]]) <= budget {
        low := middle + 1;
      } else {
        high := middle;
      }
    }
    if low == 0 {
      var end := boundaries[0];
      if p.Tokens(s[start..end]) > budget {
        return start;
      }
    }
    r := boundaries[if low == 0 then 0 else low - 1];
  }

  // ---------- The preferred boundary ----------

  /** The end of the last occurrence of `part` in `s[start..end]`. */
  function LastEnd(s: Bytes, start: nat, end: nat, part: Bytes): (r: Option<nat>)
    requires start <= end <= |s|
    ensures r.Some? ==> EndsWith(s, start, r.value, part) && r.value <= end
    ensures forall e: nat | EndsWith(s, start, e, part) && e <= end :: r.Some? && e <= r.value
    decreases end
  {
    if start + |part| > end then None
    else if s[end - |part|..end] == part then Some(end)
    else if end == start then None
    else
      assert forall e: nat | EndsWith(s, start, e, part) && e <= end :: e <= end - 1;
      LastEnd(s, start, end - 1, part)
  }

  /** `part` ends at `e` and starts at `start` or later. */
  predicate EndsWith(s: Bytes, start: nat, e: nat, part: Bytes) {
    start + |part| <= e <= |s| && s[e - |part|..e] == part
  }

  predicate ParagraphEnd(s: Bytes, start: nat, e: nat) {
    EndsWith(s, start, e, LF_BREAK) || EndsWith(s, start, e, CRLF_BREAK)
  }

  predicate LineEnd(s: Bytes, start: nat, e: nat) {
    EndsWith(s, start, e, [NEWLINE])
  }

  /** A whitespace scalar ends at `e`. */
  predicate SpaceEnd(s: Bytes, start: nat, e: nat)
    requires Text(s)
  {
    start < e <= |s| && Boundary(s, e) && Before(s, e) >= start && WhiteSpaceCode(CodePoint(s, Before(s, e)))
  }

  function LastSpace(s: Bytes, start: nat, end: nat): (r: Option<nat>)
    requires Text(s) && start <= end <= |s| && Boundary(s, start) && Boundary(s, end)
    ensures r.Some? ==> SpaceEnd(s, start, r.value) && r.value <= end
    ensures forall e: nat | SpaceEnd(s, start, e) && e <= end :: r.Some? && e <= r.value
    decreases end
  {
    if end == start then None
    else if WhiteSpaceCode(CodePoint(s, Before(s, end))) then Some(end)
    else LastSpace(s, start, Before(s, end))
  }

  function Later(a: Option<nat>, b: Option<nat>): Option<nat> {
    if a.None? then b else if b.None? then a else Some(Max(a.value, b.value))
  }

  function AtLeast(a: Option<nat>, minimum: nat): Option<nat> {
    if a.Some? && a.value >= minimum then a else None
  }

  function Middle(start: nat, end: nat): (r: nat)
    requires start < end
    ensures start <= r < end
  {
    start + (end - start) / 2
  }

  lemma NewlineEndIsBoundary(s: Bytes, start: nat, e: nat)
    requires Text(s) && (ParagraphEnd(s, start, e) || LineEnd(s, start, e))
    ensures start < e && Boundary(s, e)
  {
    assert EndsWith(s, start, e, LF_BREAK) ==> s[e - 1] == s[e - 2..e][1] == NEWLINE;
    assert EndsWith(s, start, e, CRLF_BREAK) ==> s[e - 1] == s[e - 4..e][3] == NEWLINE;
    assert EndsWith(s, start, e, [NEWLINE]) ==> s[e - 1] == s[e - 1..e][0] == NEWLINE;
    PlainByteEnds(s, e - 1);
  }

  /** Where a segment that could reach `maxEnd` is cut. Wherever that is, the segment is not empty, ends
      at a boundary and reaches at least half-way. */
  function PreferredBoundary(s: Bytes, start: nat, maxEnd: nat): (r: nat)
    requires Text(s) && start < maxEnd <= |s| && Boundary(s, start) && Boundary(s, maxEnd)
    ensures start < r <= maxEnd && Boundary(s, r) && r >= Middle(start, maxEnd)
    ensures maxEnd == |s| ==> r == maxEnd
  {
    if maxEnd == |s| then maxEnd
    else
      var minimum := Middle(start, maxEnd);
      var paragraph := Later(AtLeast(LastEnd(s, start, maxEnd, LF_BREAK), minimum),
                             AtLeast(LastEnd(s, start, maxEnd, CRLF_BREAK), minimum));
      if paragraph.Some? then
        NewlineEndIsBoundary(s, start, paragraph.value);
        paragraph.value
      else
        var line := AtLeast(LastEnd(s, start, maxEnd, [NEWLINE]), minimum);
        if line.Some? then
          NewlineEndIsBoundary(s, start, line.value);
          line.value
        else
          var space := AtLeast(LastSpace(s, start, maxEnd), minimum);
          if space.Some? then space.value else maxEnd
  }

  datatype Break = Paragraph | Line | Space

  predicate EndsAt(kind: Break, s: Bytes, start: nat, e: nat)
    requires Text(s)
  {
    match kind
    case Paragraph => ParagraphEnd(s, start, e)
    case Line => LineEnd(s, start, e)
    case Space => SpaceEnd(s, start, e)
  }

  /** The last break of the kind in the further half of the segment. */
  ghost predicate LastOf(kind: Break, s: Bytes, start: nat, maxEnd: nat, r: nat)
    requires Text(s) && start < maxEnd
  {
    Middle(start, maxEnd) <= r <= maxEnd && EndsAt(kind, s, start, r)
      && forall e: nat | r < e <= maxEnd :: !EndsAt(kind, s, start, e)
  }

  ghost predicate NoneOf(kind: Break, s: Bytes, start: nat, maxEnd: nat)
    requires Text(s) && start < maxEnd
  {
    forall e: nat | Middle(start, maxEnd) <= e <= maxEnd :: !EndsAt(kind, s, start, e)
  }

  /** What the filtered search for one ending finds. */
  lemma LastBreak(s: Bytes, start: nat, maxEnd: nat, part: Bytes)
    requires start < maxEnd <= |s|
    ensures var m, r := Middle(start, maxEnd), AtLeast(LastEnd(s, start, maxEnd, part), Middle(start, maxEnd));
      && (r.Some? ==> EndsWith(s, start, r.value, part) && m <= r.value <= maxEnd)
      && forall e: nat | EndsWith(s, start, e, part) && m <= e <= maxEnd :: r.Some? && e <= r.value
  {}

  lemma ParagraphFirst(s: Bytes, start: nat, maxEnd: nat)
    requires Text(s) && start < maxEnd < |s| && Boundary(s, start) && Boundary(s, maxEnd)
    ensures var m := Middle(start, maxEnd);
      var paragraph := Later(AtLeast(LastEnd(s, start, maxEnd, LF_BREAK), m),
                             AtLeast(LastEnd(s, start, maxEnd, CRLF_BREAK), m));
      if paragraph.Some? then LastOf(Paragraph, s, start, maxEnd, paragraph.value)
      else NoneOf(Paragraph, s, start, maxEnd)
  {
    LastBreak(s, start, maxEnd, LF_BREAK);
    LastBreak(s, start, maxEnd, CRLF_BREAK);
  }

  lemma LineNext(s: Bytes, start: nat, maxEnd: nat)
    requires Text(s) && start < maxEnd < |s|
    ensures var line := AtLeast(LastEnd(s, start, maxEnd, [NEWLINE]), Middle(start, maxEnd));
      if line.Some? then LastOf(Line, s, start, maxEnd, line.value) else NoneOf(Line, s, start, maxEnd)
  {
    LastBreak(s, start, maxEnd, [NEWLINE]);
  }

  lemma SpaceLast(s: Bytes, start: nat, maxEnd: nat)
    requires Text(s) && start < maxEnd < |s| && Boundary(s, start) && Boundary(s, maxEnd)
    ensures var space := AtLeast(LastSpace(s, start, maxEnd), Middle(start, maxEnd));
      if space.Some? then LastOf(Space, s, start, maxEnd, space.value) else NoneOf(Space, s, start, maxEnd)
  {}

  /** The last paragraph end of the further half; failing that its last line end; failing that its last
      whitespace end; failing that as far as fits. */
  lemma PreferredIsBest(s: Bytes, start: nat, maxEnd: nat)
    requires Text(s) && start < maxEnd < |s| && Boundary(s, start) && Boundary(s, maxEnd)
    ensures var r := PreferredBoundary(s, start, maxEnd);
      if !NoneOf(Paragraph, s, start, maxEnd) then LastOf(Paragraph, s, start, maxEnd, r)
      else if !NoneOf(Line, s, start, maxEnd) then LastOf(Line, s, start, maxEnd, r)
      else if !NoneOf(Space, s, start, maxEnd) then LastOf(Space, s, start, maxEnd, r)
      else r == maxEnd
  {
    ParagraphFirst(s, start, maxEnd);
    LineNext(s, start, maxEnd);
    SpaceLast(s, start, maxEnd);
    LastIsSome(Paragraph, s, start, maxEnd);
    LastIsSome(Line, s, start, maxEnd);
    LastIsSome(Space, s, start, maxEnd);
  }

  lemma LastIsSome(kind: Break, s: Bytes, start: nat, maxEnd: nat)
    requires Text(s) && start < maxEnd
    ensures forall r: nat | LastOf(kind, s, start, maxEnd, r) :: !NoneOf(kind, s, start, maxEnd)
  {}

  // ---------- The overlap ----------

  /** From every boundary in `[from, end)` on, the overlap is within the limit. */
  ghost predicate AllWithin(s: Bytes, from: nat, end: nat, p: Provider, overlap: Usize)
    requires end <= |s|
  {
    forall c: nat | from <= c < end && Boundary(s, c) :: p.count(s[c..end]) <= overlap
  }

  lemma WithinExtends(s: Bytes, candidate: nat, r: nat, end: nat, p: Provider, overlap: Usize)
    requires candidate < r <= end <= |s| && AllWithin(s, r, end, p, overlap) && p.count(s[candidate..end]) <= overlap
    requires forall k | candidate < k < r :: !Boundary(s, k)
    ensures AllWithin(s, candidate, end, p, overlap)
  {}

  /** `r` is where the walk back from `end` stops: every boundary it passed leaves an overlap within
      the limit, and the next one would not. */
  ghost predicate OverlapFrom(s: Bytes, start: nat, end: nat, p: Provider, overlap: Usize, r: nat)
    requires Text(s)
  {
    && start <= r <= end <= |s| && Boundary(s, r)
    && (overlap == 0 ==> r == end)
    && AllWithin(s, r, end, p, overlap)
    && (overlap > 0 && start < r ==> p.count(s[Before(s, r)..end]) > overlap)
  }

  method OverlapStart(s: Bytes, start: nat, end: nat, p: Provider, overlap: Usize) returns (r: nat)
    requires Text(s) && start <= end <= |s| && Boundary(s, start) && Boundary(s, end)
    ensures OverlapFrom(s, start, end, p, overlap, r)
  {
    if overlap == 0 {
      return end;
    }
    r := end;
    while r > start
      invariant start <= r <= end && Boundary(s, r)
      invariant AllWithin(s, r, end, p, overlap)
    {
      var candidate := Before(s, r);
      if p.count(s[candidate..end]) > overlap {
        break;
      }
      WithinExtends(s, candidate, r, end, p, overlap);
      r := candidate;
    }
  }

  // ---------- Splitting one text ----------

  /** One segment in its place: as far as fits, drawn back to the preferred boundary. */
  ghost predicate RangeAt(s: Bytes, p: Provider, budget: Usize, range: Range)
    requires Text(s)
  {
    && range.start < |s| && Boundary(s, range.start)
    && exists maxEnd: nat | Furthest(s, range.start, maxEnd, p, budget) ::
      range.end == PreferredBoundary(s, range.start, maxEnd)
  }

  /** Where the segment after `range` starts: at the overlap, or one scalar on if that makes no headway. */
  ghost predicate Continues(s: Bytes, p: Provider, overlap: Usize, range: Range, next: nat)
    requires Text(s) && range.start < |s| && Boundary(s, range.start)
  {
    exists r: nat | OverlapFrom(s, range.start, range.end, p, overlap, r) ::
      next == if r > range.start then r else After(s, range.start)
  }

  /** Where a segment behind the given ranges may start. */
  ghost predicate StartsNext(s: Bytes, p: Provider, budget: Usize, overlap: Usize, ranges: seq<Range>, start: nat)
    requires Text(s)
  {
    if ranges == [] then start == 0
    else
      var last := ranges[|ranges| - 1];
      RangeAt(s, p, budget, last) && last.end < |s| && Continues(s, p, overlap, last, start)
  }

  /** The ranges are laid from the front of the text, each where the one before it says. */
  ghost predicate Chain(s: Bytes, p: Provider, budget: Usize, overlap: Usize, ranges: seq<Range>)
    requires Text(s)
  {
    ranges == []
    || (var earlier, last := ranges[..|ranges| - 1], ranges[|ranges| - 1];
        && Chain(s, p, budget, overlap, earlier)
        && RangeAt(s, p, budget, last)
        && StartsNext(s, p, budget, overlap, earlier, last.start))
  }

  ghost predicate Segmentation(s: Bytes, p: Provider, budget: Usize, overlap: Usize, ranges: seq<Range>)
    requires Text(s)
  {
    Chain(s, p, budget, overlap, ranges) && |ranges| > 0 && ranges[|ranges| - 1].end == |s|
  }

  datatype Reason = EmptyContent | PrefixTooLarge | ScalarTooLarge

  datatype Split = Ranges(ranges: seq<Range>) | Rejected(reason: Reason)

  function EffectiveOverlap(p: Provider, budget: Usize, overlap: Usize): Usize
    requires p.PrefixTokens() < budget
  {
    Min(overlap, (budget - p.PrefixTokens()) / 4)
  }

  lemma RangeInside(s: Bytes, p: Provider, budget: Usize, range: Range)
    requires Text(s) && RangeAt(s, p, budget, range)
    ensures range.start < range.end <= |s| && Boundary(s, range.end)
  {
    var maxEnd: nat :| Furthest(s, range.start, maxEnd, p, budget)
      && range.end == PreferredBoundary(s, range.start, maxEnd);
  }

  /** Each segment starts behind the start of the one before it and no later than its end. */
  lemma NextAdvances(s: Bytes, p: Provider, budget: Usize, overlap: Usize, range: Range, next: nat)
    requires Text(s) && RangeAt(s, p, budget, range) && range.end < |s|
    requires Continues(s, p, overlap, range, next)
    ensures range.start < next <= range.end && Boundary(s, next)
  {
    RangeInside(s, p, budget, range);
    assert After(s, range.start) <= range.end;
  }

  /** A scalar of the text that does not fit even on its own. */
  ghost predicate ScalarMisfit(s: Bytes, p: Provider, budget: Usize, i: nat)
    requires Text(s)
  {
    i < |s| && Boundary(s, i) && !FitsAt(s, i, After(s, i), p, budget)
  }

  /** One turn of the loop: the segment at `start`, and where the next one starts. */
  method NextRange(s: Bytes, start: nat, p: Provider, budget: Usize, overlap: Usize)
    returns (range: Option<Range>, next: nat)
    requires Text(s) && start < |s| && Boundary(s, start)
    ensures range.None? ==> ScalarMisfit(s, p, budget, start)
    ensures range.Some? ==> range.value.start == start && RangeAt(s, p, budget, range.value)
    ensures range.Some? && range.value.end != |s| ==>
      range.value.end < |s| && Continues(s, p, overlap, range.value, next)
    ensures range.Some? && range.value.end != |s| ==> start < next < |s| && Boundary(s, next)
  {
    var maxEnd := FurthestFittingEnd(s, start, p, budget);
    if maxEnd <= start {
      return None, start;
    }
    var end := PreferredBoundary(s, start, maxEnd);
    range := Some(Range(start, end));
    RangeInside(s, p, budget, Range(start, end));
    if end == |s| {
      return range, end;
    }
    var overlapStart := OverlapStart(s, start, end, p, overlap);
    next := if overlapStart > start then overlapStart else After(s, start);
    NextAdvances(s, p, budget, overlap, Range(start, end), next);
  }

  method SplitChunk(s: Bytes, p: Provider, budget: Usize, overlap: Usize) returns (r: Split)
    requires Text(s)
    ensures r == Rejected(EmptyContent) <==> s == []
    ensures r == Rejected(PrefixTooLarge) <==> s != [] && p.PrefixTokens() >= budget
    ensures r == Rejected(ScalarTooLarge) ==> exists i :: ScalarMisfit(s, p, budget, i)
    ensures r.Ranges? ==>
      p.PrefixTokens() < budget && Segmentation(s, p, budget, EffectiveOverlap(p, budget, overlap), r.ranges)
  {
    if s == [] {
      return Rejected(EmptyContent);
    }
    if p.PrefixTokens() >= budget {
      return Rejected(PrefixTooLarge);
    }
    var effective := EffectiveOverlap(p, budget, overlap);
    var ranges := [];
    var start := 0;
    while start < |s|
      invariant start < |s| && Boundary(s, start)
      invariant Chain(s, p, budget, effective, ranges)
      invariant StartsNext(s, p, budget, effective, ranges, start)
      decreases |s| - start
    {
      var range, next := NextRange(s, start, p, budget, effective);
      if range.None? {
        return Rejected(ScalarTooLarge);
      }
      assert (ranges + [range.value])[..|ranges|] == ranges;
      ranges := ranges + [range.value];
      if range.value.end == |s| {
        return Ranges(ranges);
      }
      start := next;
    }
    assert false;
  }

  // ---------- Nothing is lost ----------

  /** Each segment, sent on its own, is within the budget. */
  lemma SegmentsFit(s: Bytes, p: Provider, budget: Usize, range: Range)
    requires Text(s) && Monotone(p, s) && RangeAt(s, p, budget, range)
    ensures range.start < range.end <= |s| && FitsAt(s, range.start, range.end, p, budget)
  {
    RangeInside(s, p, budget, range);
    var maxEnd: nat :| Furthest(s, range.start, maxEnd, p, budget)
      && range.end == PreferredBoundary(s, range.start, maxEnd);
    assert p.Tokens(s[range.start..range.end]) <= p.Tokens(s[range.start..maxEnd]);
  }

  /** Two segments in a row share nothing, or no more than the effective overlap. */
  lemma OverlapBounded(s: Bytes, p: Provider, budget: Usize, overlap: Usize, range: Range, next: nat)
    requires Text(s) && Monotone(p, s) && RangeAt(s, p, budget, range) && range.end < |s|
    requires Continues(s, p, overlap, range, next)
    ensures range.start < next <= range.end
    ensures next == range.end || p.count(s[next..range.end]) <= overlap
  {
    NextAdvances(s, p, budget, overlap, range, next);
    var r: nat :| OverlapFrom(s, range.start, range.end, p, overlap, r) && next == if r > range.start then r
      else After(s, range.start);
    if r <= range.start {
      assert p.count(s[range.start..range.end]) <= overlap;
      assert p.count(s[next..range.end]) <= p.count(s[range.start..range.end]);
    }
  }

  /** The text put together from the segments, each without what is already there. */
  function Rebuilt(s: Bytes, ranges: seq<Range>): Bytes
    requires forall i | 0 <= i < |ranges| :: ranges[i].start <= ranges[i].end <= |s|
  {
    if ranges == [] then []
    else
      var known, last := Rebuilt(s, ranges[..|ranges| - 1]), ranges[|ranges| - 1];
      var content := s[last.start..last.end];
      known + content[Min(SaturatingSub(|known|, last.start), |content|)..]
  }

  lemma {:induction false} RangeInChain(s: Bytes, p: Provider, budget: Usize, overlap: Usize, ranges: seq<Range>,
                                        i: nat)
    requires Text(s) && Chain(s, p, budget, overlap, ranges) && i < |ranges|
    ensures RangeAt(s, p, budget, ranges[i])
    decreases |ranges|
  {
    if i < |ranges| - 1 {
      RangeInChain(s, p, budget, overlap, ranges[..|ranges| - 1], i);
    }
  }

  /** Positions only: no segment is empty, and each starts no later than the one before it ends. */
  ghost predicate Gapless(ranges: seq<Range>, length: nat) {
    && (forall i | 0 <= i < |ranges| :: ranges[i].start < ranges[i].end <= length)
    && (|ranges| > 0 ==> ranges[0].start == 0)
    && (forall i | 0 <= i < |ranges| - 1 :: ranges[i].start < ranges[i + 1].start <= ranges[i].end)
  }

  lemma NoGaps(s: Bytes, p: Provider, budget: Usize, overlap: Usize, ranges: seq<Range>)
    requires Text(s) && Chain(s, p, budget, overlap, ranges)
    ensures Gapless(ranges, |s|)
    ensures forall i | 0 <= i < |ranges| :: Boundary(s, ranges[i].start) && Boundary(s, ranges[i].end)
  {
    forall i | 0 <= i < |ranges|
      ensures ranges[i].start < ranges[i].end <= |s| && Boundary(s, ranges[i].start) && Boundary(s, ranges[i].end)
    {
      RangeInChain(s, p, budget, overlap, ranges, i);
      RangeInside(s, p, budget, ranges[i]);
    }
    forall i | 0 <= i < |ranges| - 1 ensures ranges[i].start < ranges[i + 1].start <= ranges[i].end {
      Neighbours(s, p, budget, overlap, ranges, i);
      NextAdvances(s, p, budget, overlap, ranges[i], ranges[i + 1].start);
    }
    if |ranges| > 0 {
      FirstStartsAtZero(s, p, budget, overlap, ranges);
    }
  }

  lemma {:induction false} FirstStartsAtZero(s: Bytes, p: Provider, budget: Usize, overlap: Usize, ranges: seq<Range>)
    requires Text(s) && Chain(s, p, budget, overlap, ranges) && |ranges| > 0
    ensures ranges[0].start == 0
  {
    if |ranges| > 1 {
      FirstStartsAtZero(s, p, budget, overlap, ranges[..|ranges| - 1]);
    }
  }

  lemma GaplessBefore(ranges: seq<Range>, length: nat)
    requires Gapless(ranges, length) && ranges != []
    ensures Gapless(ranges[..|ranges| - 1], length)
  {
    var earlier := ranges[..|ranges| - 1];
    assert forall i | 0 <= i < |earlier| :: earlier[i] == ranges[i];
  }

  /** Joining gapless segments without their overlaps gives a prefix of the text that reaches the last end. */
  lemma {:induction false} RebuiltSoFar(s: Bytes, ranges: seq<Range>)
    requires Gapless(ranges, |s|)
    ensures Rebuilt(s, ranges) <= s
    ensures ranges != [] ==> |Rebuilt(s, ranges)| >= ranges[|ranges| - 1].end
  {
    if ranges != [] {
      GaplessBefore(ranges, |s|);
      RebuiltSoFar(s, ranges[..|ranges| - 1]);
      RebuiltStep(s, ranges);
    }
  }

  lemma RebuiltStep(s: Bytes, ranges: seq<Range>)
    requires Gapless(ranges, |s|) && ranges != []
    requires var earlier := ranges[..|ranges| - 1];
      && Gapless(earlier, |s|) && Rebuilt(s, earlier) <= s
      && (earlier != [] ==> |Rebuilt(s, earlier)| >= earlier[|earlier| - 1].end)
    ensures Rebuilt(s, ranges) == s[..Max(|Rebuilt(s, ranges[..|ranges| - 1])|, ranges[|ranges| - 1].end)]
  {
    var last, known := ranges[|ranges| - 1], Rebuilt(s, ranges[..|ranges| - 1]);
    assert last.start <= |known|;
    JoinSlices(s, last.start, known, last.end);
  }

  lemma JoinSlices(s: Bytes, start: nat, known: Bytes, end: nat)
    requires start <= |known| && start <= end <= |s| && known <= s
    ensures known + s[start..end][Min(SaturatingSub(|known|, start), end - start)..] == s[..Max(|known|, end)]
  {}

  /** Nothing of the text is lost and nothing is added. */
  lemma SegmentsRebuildText(s: Bytes, p: Provider, budget: Usize, overlap: Usize, ranges: seq<Range>)
    requires Text(s) && Segmentation(s, p, budget, overlap, ranges)
    ensures forall i | 0 <= i < |ranges| :: ranges[i].start < ranges[i].end <= |s|
    ensures Rebuilt(s, ranges) == s
  {
    NoGaps(s, p, budget, overlap, ranges);
    RebuiltSoFar(s, ranges);
  }

  /** Neighbours in a chain, as the single-step lemmas want them. */
  lemma {:induction false} Neighbours(s: Bytes, p: Provider, budget: Usize, overlap: Usize, ranges: seq<Range>, i: nat)
    requires Text(s) && Chain(s, p, budget, overlap, ranges) && i + 1 < |ranges|
    ensures RangeAt(s, p, budget, ranges[i]) && RangeAt(s, p, budget, ranges[i + 1])
    ensures ranges[i].end < |s| && Continues(s, p, overlap, ranges[i], ranges[i + 1].start)
    decreases |ranges|
  {
    var earlier := ranges[..|ranges| - 1];
    if i + 2 < |ranges| {
      Neighbours(s, p, budget, overlap, earlier, i);
      assert earlier[i] == ranges[i] && earlier[i + 1] == ranges[i + 1];
    } else {
      assert earlier[|earlier| - 1] == ranges[i];
    }
  }

  /** A successful split shows that every scalar fits; so under a monotone counter it fails exactly on misfits. */
  lemma {:induction false} EveryScalarFits(s: Bytes, p: Provider, budget: Usize, overlap: Usize, ranges: seq<Range>,
                                           i: nat)
    requires Text(s) && Monotone(p, s) && Chain(s, p, budget, overlap, ranges) && ranges != []
    requires i < ranges[|ranges| - 1].end <= |s| && Boundary(s, i)
    ensures FitsAt(s, i, After(s, i), p, budget)
    decreases |ranges|
  {
    var last, earlier := ranges[|ranges| - 1], ranges[..|ranges| - 1];
    RangeInside(s, p, budget, last);
    if i >= last.start {
      SegmentsFit(s, p, budget, last);
      assert After(s, i) <= last.end;
      assert p.Tokens(s[i..After(s, i)]) <= p.Tokens(s[last.start..last.end]);
    } else {
      NextAdvances(s, p, budget, overlap, earlier[|earlier| - 1], last.start);
      RangeInside(s, p, budget, earlier[|earlier| - 1]);
      EveryScalarFits(s, p, budget, overlap, earlier, i);
    }
  }
}
