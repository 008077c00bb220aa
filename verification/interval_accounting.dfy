/** Which bytes of a context packet repeat: merged interval lists against plain sets of points. */
module IntervalAccounting {
  import opened Prelude

  datatype Interval = Interval(start: nat, end: nat)

  datatype Segment = Segment(source: string, start: nat, end: nat)

  datatype Item = Item(sourceType: string, sourceId: string, estimatedTokens: nat, segments: seq<Segment>)

  // ---------- Points ----------

  ghost function Range(a: nat, b: nat): (r: set<nat>)
    ensures forall p :: p in r <==> a <= p < b
    ensures |r| == SaturatingSub(b, a)
    decreases b
  {
    if a >= b then {} else Range(a, b - 1) + {b - 1}
  }

  ghost function Points(list: seq<Interval>): set<nat> {
    if list == [] then {} else Points(list[..|list| - 1]) + Range(list[|list| - 1].start, list[|list| - 1].end)
  }

  lemma PointsMembers(list: seq<Interval>, p: nat)
    ensures p in Points(list) <==> exists i | 0 <= i < |list| :: list[i].start <= p < list[i].end
  {
    if list != [] {
      var earlier, last := list[..|list| - 1], list[|list| - 1];
      PointsMembers(earlier, p);
      if p in Points(earlier) {
        var i :| 0 <= i < |earlier| && earlier[i].start <= p < earlier[i].end;
        assert list[i] == earlier[i];
      }
      if exists i | 0 <= i < |list| :: list[i].start <= p < list[i].end {
        var i :| 0 <= i < |list| && list[i].start <= p < list[i].end;
        assert i < |earlier| ==> earlier[i] == list[i];
      }
    }
  }

  /** Non-empty intervals in order, with a gap between each two. */
  ghost predicate Separated(list: seq<Interval>) {
    && (forall i | 0 <= i < |list| :: list[i].start < list[i].end)
    && (forall i, j | 0 <= i < j < |list| :: list[i].end < list[j].start)
  }

  // ---------- Inserting ----------

  predicate NotAfter(a: Interval, b: Interval) {
    a.start < b.start || (a.start == b.start && a.end <= b.end)
  }

  ghost predicate Ordered(list: seq<Interval>) {
    forall i, j | 0 <= i < j < |list| :: NotAfter(list[i], list[j])
  }

  function InsertOrdered(x: Interval, list: seq<Interval>): (r: seq<Interval>)
    requires Ordered(list)
    ensures Ordered(r)
    ensures forall y :: y in r <==> y == x || y in list
  {
    if list == [] then [x]
    else if NotAfter(x, list[0]) then [x] + list
    else
      assert list == [list[0]] + list[1..];
      var rest := InsertOrdered(x, list[1..]);
      assert forall y | y in rest :: NotAfter(list[0], y);
      [list[0]] + rest
  }

  function Sort(list: seq<Interval>): (r: seq<Interval>)
    ensures Ordered(r)
    ensures forall y :: y in r <==> y in list
  {
    if list == [] then [] else
      assert list == [list[0]] + list[1..];
      InsertOrdered(list[0], Sort(list[1..]))
  }

  lemma SamePoints(a: seq<Interval>, b: seq<Interval>)
    requires forall y :: y in a <==> y in b
    ensures Points(a) == Points(b)
  {
    forall p: nat ensures p in Points(a) <==> p in Points(b) {
      PointsMembers(a, p);
      PointsMembers(b, p);
      if exists i | 0 <= i < |a| :: a[i].start <= p < a[i].end {
        var i :| 0 <= i < |a| && a[i].start <= p < a[i].end;
        assert a[i] in b;
      }
      if exists i | 0 <= i < |b| :: b[i].start <= p < b[i].end {
        var i :| 0 <= i < |b| && b[i].start <= p < b[i].end;
        assert b[i] in a;
      }
    }
  }

  /** The merged list so far with the next interval in order: joined to the last one, or after it. */
  function Merged(list: seq<Interval>, next: Interval): seq<Interval> {
    if list != [] && next.start <= list[|list| - 1].end then
      var last := list[|list| - 1];
      list[..|list| - 1] + [Interval(last.start, Max(last.end, next.end))]
    else
      list + [next]
  }

  lemma MergedKeeps(list: seq<Interval>, next: Interval)
    requires Separated(list) && next.start < next.end
    requires list != [] ==> list[|list| - 1].start <= next.start
    ensures Separated(Merged(list, next))
    ensures Merged(list, next)[|Merged(list, next)| - 1].start <= next.start
  {}

  lemma MergedPoints(list: seq<Interval>, next: Interval)
    requires next.start < next.end
    requires list != [] ==> list[|list| - 1].start <= next.start && list[|list| - 1].start < list[|list| - 1].end
    ensures Points(Merged(list, next)) == Points(list) + Range(next.start, next.end)
  {
    var r := Merged(list, next);
    if list != [] && next.start <= list[|list| - 1].end {
      var last := list[|list| - 1];
      assert r[..|r| - 1] == list[..|list| - 1];
      assert Range(last.start, last.end) + Range(next.start, next.end) == Range(last.start, Max(last.end, next.end));
    } else {
      assert r[..|r| - 1] == list;
    }
  }

  function MergeAll(sorted: seq<Interval>): seq<Interval> {
    if sorted == [] then [] else Merged(MergeAll(sorted[..|sorted| - 1]), sorted[|sorted| - 1])
  }

  lemma {:induction false} MergeAllRight(sorted: seq<Interval>)
    requires Ordered(sorted) && forall i | 0 <= i < |sorted| :: sorted[i].start < sorted[i].end
    ensures Separated(MergeAll(sorted)) && Points(MergeAll(sorted)) == Points(sorted)
    ensures sorted != [] ==>
      MergeAll(sorted) != [] && MergeAll(sorted)[|MergeAll(sorted)| - 1].start <= sorted[|sorted| - 1].start
  {
    if sorted != [] {
      var before, last := sorted[..|sorted| - 1], sorted[|sorted| - 1];
      MergeAllRight(before);
      assert before != [] ==> NotAfter(before[|before| - 1], last);
      assert before == [] ==> MergeAll(before) == [];
      MergedKeeps(MergeAll(before), last);
      MergedPoints(MergeAll(before), last);
    }
  }

  method MergeSorted(sorted: seq<Interval>) returns (r: seq<Interval>)
    ensures r == MergeAll(sorted)
  {
    r := [];
    for k := 0 to |sorted|
      invariant r == MergeAll(sorted[..k])
    {
      assert sorted[..k + 1][..k] == sorted[..k];
      if r != [] && sorted[k].start <= r[|r| - 1].end {
        var last := r[|r| - 1];
        r := r[..|r| - 1] + [Interval(last.start, Max(last.end, sorted[k].end))];
      } else {
        r := r + [sorted[k]];
      }
    }
    assert sorted[..|sorted|] == sorted;
  }

  /** Adds one interval and merges what touches: the list covers exactly the union and stays separated. */
  method InsertInterval(intervals: seq<Interval>, start: nat, end: nat) returns (r: seq<Interval>)
    requires Separated(intervals)
    ensures Separated(r)
    ensures Points(r) == Points(intervals) + Range(start, end)
  {
    if start >= end {
      return intervals;
    }
    var pushed := intervals + [Interval(start, end)];
    assert pushed[..|pushed| - 1] == intervals;
    var sorted := Sort(pushed);
    PushedRight(intervals, Interval(start, end), sorted);
    r := MergeSorted(sorted);
  }

  lemma PushedRight(intervals: seq<Interval>, added: Interval, sorted: seq<Interval>)
    requires Separated(intervals) && added.start < added.end && sorted == Sort(intervals + [added])
    ensures Separated(MergeAll(sorted)) && Points(MergeAll(sorted)) == Points(intervals + [added])
  {
    var pushed := intervals + [added];
    forall i | 0 <= i < |sorted| ensures sorted[i].start < sorted[i].end {
      assert sorted[i] in pushed;
    }
    SamePoints(sorted, pushed);
    MergeAllRight(sorted);
  }

  // ---------- Measuring ----------

  function IntervalOverlap(start: nat, end: nat, covered: seq<Interval>): nat {
    if covered == [] then 0
    else
      var last := covered[|covered| - 1];
      IntervalOverlap(start, end, covered[..|covered| - 1]) + SaturatingSub(Min(end, last.end), Max(start, last.start))
  }

  /** The overlap of a range with a separated list is the number of covered points in the range. */
  lemma {:induction false} OverlapCountsPoints(start: nat, end: nat, covered: seq<Interval>)
    requires Separated(covered)
    ensures IntervalOverlap(start, end, covered) == |Points(covered) * Range(start, end)|
  {
    if covered == [] {
      assert Points(covered) * Range(start, end) == {};
    } else {
      var earlier, last := covered[..|covered| - 1], covered[|covered| - 1];
      OverlapCountsPoints(start, end, earlier);
      EarlierIsBelow(covered);
      RangesMeet(start, end, last);
      SplitOverlap(Points(earlier), Range(last.start, last.end), Range(start, end), last.start);
    }
  }

  ghost predicate AllBelow(points: set<nat>, bound: nat) { forall p: nat :: p in points ==> p < bound }

  lemma SplitOverlap(before: set<nat>, last: set<nat>, range: set<nat>, bound: nat)
    requires AllBelow(before, bound) && forall p: nat :: p in last ==> p >= bound
    ensures |(before + last) * range| == |before * range| + |last * range|
  {
    assert (before + last) * range == before * range + last * range;
    DisjointSizes(before * range, last * range);
  }

  lemma RangesMeet(start: nat, end: nat, last: Interval)
    ensures Range(last.start, last.end) * Range(start, end) == Range(Max(start, last.start), Min(end, last.end))
  {}

  lemma EarlierIsBelow(covered: seq<Interval>)
    requires Separated(covered) && covered != []
    ensures AllBelow(Points(covered[..|covered| - 1]), covered[|covered| - 1].start)
  {
    var earlier := covered[..|covered| - 1];
    forall p: nat | p in Points(earlier) ensures p < covered[|covered| - 1].start {
      PointsMembers(earlier, p);
      var i :| 0 <= i < |earlier| && earlier[i].start <= p < earlier[i].end;
      assert covered[i].end < covered[|covered| - 1].start;
    }
  }

  lemma DisjointSizes<T>(a: set<T>, b: set<T>)
    requires a * b == {}
    ensures |a + b| == |a| + |b|
  {}

  // ---------- Items ----------

  ghost function Tagged(source: string, points: set<nat>): set<(string, nat)> {
    set p | p in points :: (source, p)
  }

  lemma TaggedSize(source: string, points: set<nat>)
    ensures |Tagged(source, points)| == |points|
  {
    if points != {} {
      var p :| p in points;
      TaggedSize(source, points - {p});
      assert Tagged(source, points) == Tagged(source, points - {p}) + {(source, p)};
    }
  }

  ghost function SegmentPoints(segment: Segment): set<(string, nat)> {
    Tagged(segment.source, Range(segment.start, segment.end))
  }

  ghost function ItemPoints(segments: seq<Segment>): set<(string, nat)> {
    if segments == [] then {} else ItemPoints(segments[..|segments| - 1]) + SegmentPoints(segments[|segments| - 1])
  }

  /** Every byte that the items' segments cover. */
  ghost function Union(items: seq<Item>): set<(string, nat)> {
    if items == [] then {} else Union(items[..|items| - 1]) + ItemPoints(items[|items| - 1].segments)
  }

  function TotalBytes(segments: seq<Segment>): nat {
    if segments == [] then 0
    else
      var last := segments[|segments| - 1];
      TotalBytes(segments[..|segments| - 1]) + SaturatingSub(last.end, last.start)
  }

  /** How many bytes of the segments, each counted on its own, were covered before. */
  ghost function DuplicateBytes(segments: seq<Segment>, covered: set<(string, nat)>): nat {
    if segments == [] then 0
    else DuplicateBytes(segments[..|segments| - 1], covered) + |SegmentPoints(segments[|segments| - 1]) * covered|
  }

  /** Half-up rounding of a non-negative value. */
  function Round(x: real): (r: int)
    requires x >= 0.0
    ensures r >= 0
  {
    (x + 0.5).Floor
  }

  function ShareOfTokens(tokens: nat, duplicate: nat, total: nat): (r: nat)
    requires total > 0
  {
    var ratio := duplicate as real / total as real;
    ProductNonNegative(tokens as real, ratio);
    Round(tokens as real * ratio)
  }

  lemma ProductNonNegative(a: real, b: real)
    requires a >= 0.0 && b >= 0.0
    ensures a * b >= 0.0
  {}

  /** The sources the items were taken from. */
  ghost function Selected(items: seq<Item>): set<(string, string)> {
    if items == [] then {}
    else Selected(items[..|items| - 1]) + {(items[|items| - 1].sourceType, items[|items| - 1].sourceId)}
  }

  /** The tokens one item repeats of the items before it. */
  ghost function DuplicateShare(before: seq<Item>, item: Item): nat {
    if item.segments == [] then
      (if (item.sourceType, item.sourceId) in Selected(before) then item.estimatedTokens else 0)
    else if TotalBytes(item.segments) == 0 then 0
    else ShareOfTokens(item.estimatedTokens, DuplicateBytes(item.segments, Union(before)), TotalBytes(item.segments))
  }

  ghost function DuplicateTokens(items: seq<Item>): nat {
    if items == [] then 0
    else Min(DuplicateTokens(items[..|items| - 1]) + DuplicateShare(items[..|items| - 1], items[|items| - 1]),
             MAX_USIZE)
  }

  // ---------- The accounting ----------

  ghost predicate Covers(covered: map<string, seq<Interval>>, points: set<(string, nat)>) {
    && (forall s | s in covered :: Separated(covered[s]))
    && (forall s, p: nat :: (s, p) in points <==> s in covered && p in Points(covered[s]))
  }

  method MeasureItem(segments: seq<Segment>, covered: map<string, seq<Interval>>, ghost points: set<(string, nat)>)
    returns (total: nat, duplicate: nat)
    requires Covers(covered, points)
    ensures total == TotalBytes(segments) && duplicate == DuplicateBytes(segments, points)
  {
    total, duplicate := 0, 0;
    for i := 0 to |segments|
      invariant total == TotalBytes(segments[..i]) && duplicate == DuplicateBytes(segments[..i], points)
    {
      var segment := segments[i];
      assert segments[..i + 1][..i] == segments[..i];
      total := total + SaturatingSub(segment.end, segment.start);
      var overlap := if segment.source in covered then
        IntervalOverlap(segment.start, segment.end, covered[segment.source]) else 0;
      SegmentOverlap(segment, covered, points);
      duplicate := duplicate + overlap;
    }
    assert segments[..|segments|] == segments;
  }

  lemma SegmentOverlap(segment: Segment, covered: map<string, seq<Interval>>, points: set<(string, nat)>)
    requires Covers(covered, points)
    ensures |SegmentPoints(segment) * points|
         == if segment.source in covered then IntervalOverlap(segment.start, segment.end, covered[segment.source])
           else 0
  {
    if segment.source in covered {
      var here := Points(covered[segment.source]) * Range(segment.start, segment.end);
      OverlapCountsPoints(segment.start, segment.end, covered[segment.source]);
      assert SegmentPoints(segment) * points == Tagged(segment.source, here);
      TaggedSize(segment.source, here);
    } else {
      assert SegmentPoints(segment) * points == {};
    }
  }

  method CoverItem(segments: seq<Segment>, before: map<string, seq<Interval>>, ghost points: set<(string, nat)>)
    returns (covered: map<string, seq<Interval>>)
    requires Covers(before, points)
    ensures Covers(covered, points + ItemPoints(segments))
  {
    covered := before;
    for i := 0 to |segments|
      invariant Covers(covered, points + ItemPoints(segments[..i]))
    {
      var segment := segments[i];
      assert segments[..i + 1][..i] == segments[..i];
      var list := if segment.source in covered then covered[segment.source] else [];
      ghost var known := points + ItemPoints(segments[..i]);
      var merged := InsertInterval(list, segment.start, segment.end);
      CoverGrows(covered, known, segment, list, merged);
      covered := covered[segment.source := merged];
      assert points + ItemPoints(segments[..i + 1]) == known + SegmentPoints(segment);
    }
    assert segments[..|segments|] == segments;
  }

  lemma CoverGrows(covered: map<string, seq<Interval>>, known: set<(string, nat)>, segment: Segment,
                   list: seq<Interval>, merged: seq<Interval>)
    requires Covers(covered, known) && Separated(merged)
    requires list == if segment.source in covered then covered[segment.source] else []
    requires Points(merged) == Points(list) + Range(segment.start, segment.end)
    ensures Covers(covered[segment.source := merged], known + SegmentPoints(segment))
  {
    var after := covered[segment.source := merged];
    forall s, p: nat ensures (s, p) in known + SegmentPoints(segment) <==> s in after && p in Points(after[s]) {
      assert (s, p) in SegmentPoints(segment) <==> s == segment.source && p in Range(segment.start, segment.end);
    }
  }

  method CountItem(item: Item, covered: map<string, seq<Interval>>, selected: set<(string, string)>,
                   ghost before: seq<Item>)
    returns (share: nat, after: map<string, seq<Interval>>)
    requires Covers(covered, Union(before)) && selected == Selected(before)
    ensures share == DuplicateShare(before, item)
    ensures Covers(after, Union(before) + ItemPoints(item.segments))
  {
    if item.segments == [] {
      share := if (item.sourceType, item.sourceId) in selected then item.estimatedTokens else 0;
      after := covered;
      assert Union(before) + ItemPoints(item.segments) == Union(before);
    } else {
      var total, duplicate := MeasureItem(item.segments, covered, Union(before));
      share := if total > 0 then ShareOfTokens(item.estimatedTokens, duplicate, total) else 0;
      after := CoverItem(item.segments, covered, Union(before));
    }
  }

  lemma UnionGrows(before: seq<Item>, item: Item)
    ensures Union(before + [item]) == Union(before) + ItemPoints(item.segments)
  {
    assert (before + [item])[..|before|] == before;
  }

  lemma SelectedGrows(before: seq<Item>, item: Item)
    ensures Selected(before + [item]) == Selected(before) + {(item.sourceType, item.sourceId)}
  {
    assert (before + [item])[..|before|] == before;
  }

  lemma DuplicatesGrow(before: seq<Item>, item: Item)
    ensures DuplicateTokens(before + [item]) == Min(DuplicateTokens(before) + DuplicateShare(before, item), MAX_USIZE)
  {
    assert (before + [item])[..|before|] == before;
  }

  /** What has been counted over the items so far. */
  datatype Tally = Tally(covered: map<string, seq<Interval>>, selected: set<(string, string)>, tokens: nat)

  ghost predicate Counted(before: seq<Item>, tally: Tally) {
    && Covers(tally.covered, Union(before))
    && tally.selected == Selected(before)
    && tally.tokens == DuplicateTokens(before)
  }

  ghost predicate CountedTo(items: seq<Item>, i: nat, tally: Tally)
    requires i <= |items|
  {
    Counted(items[..i], tally)
  }

  method CountNext(item: Item, tally: Tally, ghost before: seq<Item>) returns (next: Tally)
    requires Counted(before, tally)
    ensures Counted(before + [item], next)
  {
    UnionGrows(before, item);
    SelectedGrows(before, item);
    DuplicatesGrow(before, item);
    var share, covered := CountItem(item, tally.covered, tally.selected, before);
    next := Tally(covered, tally.selected + {(item.sourceType, item.sourceId)}, Min(tally.tokens + share, MAX_USIZE));
  }

  lemma PrefixGrows(items: seq<Item>, i: nat)
    requires i < |items|
    ensures items[..i] + [items[i]] == items[..i + 1]
  {}

  lemma NothingCounted(items: seq<Item>)
    ensures CountedTo(items, 0, Tally(map[], {}, 0))
  {
    assert items[..0] == [];
  }

  lemma AllCounted(items: seq<Item>, tally: Tally)
    requires CountedTo(items, |items|, tally)
    ensures tally.tokens == DuplicateTokens(items)
  {
    assert items[..|items|] == items;
  }

  method CountStep(items: seq<Item>, i: nat, tally: Tally) returns (next: Tally)
    requires i < |items| && CountedTo(items, i, tally)
    ensures CountedTo(items, i + 1, next)
  {
    PrefixGrows(items, i);
    next := CountNext(items[i], tally, items[..i]);
  }

  /** The duplicate tokens of a packet, as the sets of covered bytes define them. */
  method DuplicateItemTokens(items: seq<Item>) returns (duplicateTokens: nat)
    ensures duplicateTokens == DuplicateTokens(items)
  {
    var tally := Tally(map[], {}, 0);
    NothingCounted(items);
    for i := 0 to |items|
      invariant CountedTo(items, i, tally)
    {
      tally := CountStep(items, i, tally);
    }
    AllCounted(items, tally);
    duplicateTokens := tally.tokens;
  }

  // ---------- What the count means ----------

  lemma {:induction false} DuplicateWithinTotal(segments: seq<Segment>, covered: set<(string, nat)>)
    ensures DuplicateBytes(segments, covered) <= TotalBytes(segments)
  {
    if segments != [] {
      DuplicateWithinTotal(segments[..|segments| - 1], covered);
      var last := segments[|segments| - 1];
      TaggedSize(last.source, Range(last.start, last.end));
      SubsetSize(SegmentPoints(last) * covered, SegmentPoints(last));
    }
  }

  lemma RatioInUnit(part: nat, whole: nat)
    requires part <= whole && whole > 0
    ensures 0.0 <= part as real / whole as real <= 1.0
  {}

  lemma ScaledRound(tokens: nat, ratio: real)
    requires 0.0 <= ratio <= 1.0
    ensures tokens as real * ratio >= 0.0 && Round(tokens as real * ratio) <= tokens
  {
    ProductNonNegative(tokens as real, ratio);
    ScaledDown(tokens as real, ratio);
    RoundWithin(tokens as real * ratio, tokens);
  }

  lemma RatioAtMostOne(tokens: nat, duplicate: nat, total: nat)
    requires duplicate <= total && total > 0
    ensures ShareOfTokens(tokens, duplicate, total) <= tokens
  {
    RatioInUnit(duplicate, total);
    ScaledRound(tokens, duplicate as real / total as real);
  }

  lemma RoundWithin(x: real, n: nat)
    requires 0.0 <= x <= n as real
    ensures Round(x) <= n
  {}

  lemma ScaledDown(a: real, ratio: real)
    requires a >= 0.0 && ratio <= 1.0
    ensures a * ratio <= a
  {}

  /** An item never repeats more tokens than it is estimated to hold. */
  lemma ShareWithinEstimate(before: seq<Item>, item: Item)
    ensures DuplicateShare(before, item) <= item.estimatedTokens
  {
    if item.segments != [] && TotalBytes(item.segments) > 0 {
      DuplicateWithinTotal(item.segments, Union(before));
      RatioAtMostOne(item.estimatedTokens, DuplicateBytes(item.segments, Union(before)), TotalBytes(item.segments));
    }
  }

  ghost function EstimatedTokens(items: seq<Item>): nat {
    if items == [] then 0 else EstimatedTokens(items[..|items| - 1]) + items[|items| - 1].estimatedTokens
  }

  /** Nor does a packet: the duplicates are part of what the items hold. */
  lemma {:induction false} DuplicatesWithinEstimates(items: seq<Item>)
    ensures DuplicateTokens(items) <= EstimatedTokens(items)
  {
    if items != [] {
      DuplicatesWithinEstimates(items[..|items| - 1]);
      ShareWithinEstimate(items[..|items| - 1], items[|items| - 1]);
    }
  }

  /** No two segments of the item cover the same byte. */
  ghost predicate OwnSegmentsDisjoint(segments: seq<Segment>) {
    segments == []
    || (OwnSegmentsDisjoint(segments[..|segments| - 1])
        && ItemPoints(segments[..|segments| - 1]) !! SegmentPoints(segments[|segments| - 1]))
  }

  /** For such an item the duplicate bytes are the bytes already covered, and the total is its size. */
  lemma {:induction false} DisjointItem(segments: seq<Segment>, covered: set<(string, nat)>)
    requires OwnSegmentsDisjoint(segments)
    ensures TotalBytes(segments) == |ItemPoints(segments)|
    ensures DuplicateBytes(segments, covered) == |ItemPoints(segments) * covered|
  {
    if segments != [] {
      var before, last := segments[..|segments| - 1], segments[|segments| - 1];
      DisjointItem(before, covered);
      TaggedSize(last.source, Range(last.start, last.end));
      DisjointSums(ItemPoints(before), SegmentPoints(last), covered);
    }
  }

  lemma DisjointSums(a: set<(string, nat)>, b: set<(string, nat)>, covered: set<(string, nat)>)
    requires a * b == {}
    ensures |a + b| == |a| + |b|
    ensures |(a + b) * covered| == |a * covered| + |b * covered|
  {
    DisjointSizes(a, b);
    DisjointSizes(a * covered, b * covered);
    assert (a + b) * covered == a * covered + b * covered;
  }

  ghost function FreshBytes(items: seq<Item>): int {
    if items == [] then 0
    else
      var last := items[|items| - 1];
      FreshBytes(items[..|items| - 1])
        + TotalBytes(last.segments) - DuplicateBytes(last.segments, Union(items[..|items| - 1]))
  }

  /** Conservation: what the items bring that was not there before adds up to the whole coverage. */
  lemma {:induction false} FreshBytesMakeTheUnion(items: seq<Item>)
    requires forall i | 0 <= i < |items| :: OwnSegmentsDisjoint(items[i].segments)
    ensures FreshBytes(items) == |Union(items)|
  {
    if items != [] {
      var before, last := items[..|items| - 1], items[|items| - 1];
      FreshBytesMakeTheUnion(before);
      DisjointItem(last.segments, Union(before));
      UnionSize(Union(before), ItemPoints(last.segments));
    }
  }

  lemma UnionSize<T>(known: set<T>, own: set<T>)
    ensures |known + own| == |known| + |own| - |own * known|
  {
    DisjointSizes(known, own - known);
    DisjointSizes(own * known, own - known);
    assert own == own * known + (own - known);
    assert known + own == known + (own - known);
  }
}
