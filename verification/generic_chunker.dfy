/** Cutting plain text into overlapping chunks at headings, paragraphs or plain boundaries. */
module GenericChunker {
  import opened Prelude
  import opened Utf8

  const HASH: Byte := 35

  datatype Chunk = Chunk(start: nat, end: nat)

  // ---------- Cuts ----------

  /** A heading line starts at `h`, all of its mark inside `[a, b)`. */
  predicate HeadingIn(s: Bytes, a: nat, h: nat, b: nat) {
    a + 1 <= h && h + 1 <= b <= |s| && s[h - 1] == NEWLINE && s[h] == HASH
  }

  /** A blank line ends at `p`, all of it inside `[a, b)`. */
  predicate ParagraphIn(s: Bytes, a: nat, p: nat, b: nat) {
    a + 2 <= p <= b <= |s| && s[p - 2] == NEWLINE && s[p - 1] == NEWLINE
  }

  /** The last heading start in a window. */
  function LastHeading(s: Bytes, a: nat, b: nat): (r: Option<nat>)
    requires b <= |s|
    ensures r.Some? ==> HeadingIn(s, a, r.value, b)
    ensures forall h: nat | HeadingIn(s, a, h, b) :: r.Some? && h <= r.value
    decreases b
  {
    if b < a + 2 then None
    else if s[b - 2] == NEWLINE && s[b - 1] == HASH then Some(b - 1)
    else
      assert forall h: nat | HeadingIn(s, a, h, b) :: h == b - 1 || HeadingIn(s, a, h, b - 1);
      LastHeading(s, a, b - 1)
  }

  /** The last blank-line end in a window. */
  function LastParagraph(s: Bytes, a: nat, b: nat): (r: Option<nat>)
    requires b <= |s|
    ensures r.Some? ==> ParagraphIn(s, a, r.value, b)
    ensures forall p: nat | ParagraphIn(s, a, p, b) :: r.Some? && p <= r.value
    decreases b
  {
    if b < a + 2 then None
    else if s[b - 2] == NEWLINE && s[b - 1] == NEWLINE then Some(b)
    else
      assert forall p: nat | ParagraphIn(s, a, p, b) :: p == b || ParagraphIn(s, a, p, b - 1);
      LastParagraph(s, a, b - 1)
  }

  // ---------- What a chunking is ----------

  /** Where the window that opens at `start` ends. */
  function Window(s: Bytes, start: nat, target: nat): nat {
    Floor(s, Min(start + target, |s|))
  }

  /** The window cut at its last heading, if that lies past the previous chunk. */
  function HeadingCut(s: Bytes, start: nat, previousEnd: nat, window: nat): (r: nat)
    requires window <= |s|
    ensures r <= window
  {
    var heading := LastHeading(s, start, window);
    if window < |s| && heading.Some? && heading.value > previousEnd then heading.value else window
  }

  /** A further cut at the last blank line, if that lies past the previous chunk. */
  function ParagraphCut(s: Bytes, start: nat, previousEnd: nat, end: nat): (r: nat)
    requires end <= |s|
    ensures r <= end
  {
    var paragraph := LastParagraph(s, start, end);
    if end < |s| && paragraph.Some? && paragraph.value > previousEnd then paragraph.value else end
  }

  /** Where the chunk at `start` ends, given where the previous one ended. */
  function ChunkEnd(s: Bytes, start: nat, previousEnd: nat, target: nat): nat
    requires Text(s) && previousEnd < |s| && Boundary(s, previousEnd)
  {
    var end := ParagraphCut(s, start, previousEnd, HeadingCut(s, start, previousEnd, Window(s, start, target)));
    if end <= previousEnd then After(s, previousEnd) else end
  }

  /** Where the next chunk starts: rewound by the overlap, unless the chunk is no longer than it. */
  function NextStart(s: Bytes, chunk: Chunk, overlap: nat): nat {
    Min(Ceiling(s, Min(if chunk.end <= chunk.start + overlap then chunk.end else chunk.end - overlap, |s|)), chunk.end)
  }

  function PreviousEnd(chunks: seq<Chunk>, i: nat): nat
    requires i <= |chunks|
  {
    if i == 0 then 0 else chunks[i - 1].end
  }

  function StartAt(s: Bytes, chunks: seq<Chunk>, i: nat, overlap: nat): nat
    requires i <= |chunks|
  {
    if i == 0 then 0 else NextStart(s, chunks[i - 1], overlap)
  }

  /** One chunk in its place: opened at `start`, behind a chunk that ended at `previousEnd`. */
  ghost predicate ChunkAt(s: Bytes, start: nat, previousEnd: nat, chunk: Chunk, target: nat)
    requires Text(s)
  {
    && chunk.start == start <= previousEnd < |s|
    && Boundary(s, start) && Boundary(s, previousEnd)
    && chunk.end == ChunkEnd(s, start, previousEnd, target)
    && previousEnd < chunk.end <= |s|
  }

  /** Every chunk starts and ends where the rules say. */
  ghost predicate Follows(s: Bytes, chunks: seq<Chunk>, target: nat, overlap: nat)
    requires Text(s)
  {
    chunks == [] ||
    var earlier, last := chunks[..|chunks| - 1], chunks[|chunks| - 1];
    Follows(s, earlier, target, overlap) &&
    ChunkAt(s, StartAt(s, chunks, |earlier|, overlap), PreviousEnd(chunks, |earlier|), last, target)
  }

  /** The chunks follow the rules up to the end of the text. */
  ghost predicate Chunking(s: Bytes, chunks: seq<Chunk>, target: nat, overlap: nat)
    requires Text(s)
  {
    && Follows(s, chunks, target, overlap)
    && (s == [] <==> chunks == [])
    && (chunks != [] ==> chunks[|chunks| - 1].end == |s|)
  }

  // ---------- The chunker ----------

  method FloorCharBoundary(s: Bytes, at: nat) returns (index: nat)
    requires at <= |s|
    ensures index == Floor(s, at)
  {
    index := at;
    while index > 0 && !Boundary(s, index)
      invariant index <= at && Floor(s, at) == Floor(s, index)
    {
      index := index - 1;
    }
  }

  method NextCharBoundaryAtOrAfter(s: Bytes, at: nat) returns (index: nat)
    ensures index == Ceiling(s, Min(at, |s|))
  {
    index := Min(at, |s|);
    while index < |s| && !Boundary(s, index)
      invariant Min(at, |s|) <= index <= |s| && Ceiling(s, index) == Ceiling(s, Min(at, |s|))
    {
      index := index + 1;
    }
  }

  method NextCharBoundary(s: Bytes, at: nat) returns (index: nat)
    requires Text(s) && at < |s| && Boundary(s, at)
    ensures index == After(s, at)
  {
    index := NextCharBoundaryAtOrAfter(s, at + 1);
    assert Boundary(s, After(s, at));
  }

  /** One chunk: the window, cut at a heading and then at a blank line, and never inside the last chunk. */
  method CutChunk(s: Bytes, start: nat, previousEnd: nat, target: nat) returns (end: nat)
    requires Text(s) && start <= previousEnd < |s| && Boundary(s, start) && Boundary(s, previousEnd)
    ensures ChunkAt(s, start, previousEnd, Chunk(start, end), target)
    ensures Boundary(s, end)
  {
    end := FloorCharBoundary(s, Min(start + target, |s|));
    if end < |s| {
      var heading := LastHeading(s, start, end);
      if heading.Some? && heading.value > previousEnd {
        end := heading.value;
      }
    }
    if end < |s| {
      var paragraph := LastParagraph(s, start, end);
      if paragraph.Some? && paragraph.value > previousEnd {
        end := paragraph.value;
      }
    }
    if end <= previousEnd {
      end := NextCharBoundary(s, previousEnd);
    }
    CutsAreBoundaries(s, start, previousEnd, target);
  }

  method RewindStart(s: Bytes, start: nat, end: nat, overlap: nat) returns (next: nat)
    requires start <= end <= |s| && Boundary(s, end)
    ensures next == NextStart(s, Chunk(start, end), overlap)
    ensures next <= end && Boundary(s, next)
  {
    var proposed := if end - start <= overlap then end else end - overlap;
    next := NextCharBoundaryAtOrAfter(s, proposed);
    next := Min(next, end);
  }

  method ChunkBoundaries(s: Bytes, target: nat, overlap: nat) returns (chunks: seq<Chunk>)
    requires Text(s)
    ensures Chunking(s, chunks, target, overlap)
  {
    chunks := [];
    var start, previousEnd := 0, 0;
    while start < |s|
      invariant start <= previousEnd <= |s| && (s != [] ==> previousEnd < |s|)
      invariant Boundary(s, start) && Boundary(s, previousEnd)
      invariant Follows(s, chunks, target, overlap)
      invariant previousEnd == PreviousEnd(chunks, |chunks|)
      invariant start == StartAt(s, chunks, |chunks|, overlap)
      decreases |s| - previousEnd
    {
      var end := CutChunk(s, start, previousEnd, target);
      FollowsExtended(s, chunks, target, overlap, Chunk(start, end));
      chunks := chunks + [Chunk(start, end)];
      if end == |s| {
        return;
      }
      previousEnd := end;
      start := RewindStart(s, start, end, overlap);
    }
  }

  lemma FollowsExtended(s: Bytes, chunks: seq<Chunk>, target: nat, overlap: nat, chunk: Chunk)
    requires Text(s) && Follows(s, chunks, target, overlap)
    requires ChunkAt(s, StartAt(s, chunks, |chunks|, overlap), PreviousEnd(chunks, |chunks|), chunk, target)
    ensures Follows(s, chunks + [chunk], target, overlap)
  {
    var longer := chunks + [chunk];
    assert longer[..|longer| - 1] == chunks;
    assert StartAt(s, longer, |chunks|, overlap) == StartAt(s, chunks, |chunks|, overlap);
    assert PreviousEnd(longer, |chunks|) == PreviousEnd(chunks, |chunks|);
  }

  /** Structural cuts fall between scalars. */
  lemma CutsAreBoundaries(s: Bytes, start: nat, previousEnd: nat, target: nat)
    requires Text(s) && start <= previousEnd < |s| && Boundary(s, previousEnd)
    ensures Boundary(s, ChunkEnd(s, start, previousEnd, target))
    ensures previousEnd < ChunkEnd(s, start, previousEnd, target) <= |s|
  {
    var window := Window(s, start, target);
    var cut := HeadingCut(s, start, previousEnd, window);
    NewlineEndsScalar(s);
    assert Boundary(s, cut);
    assert Boundary(s, ParagraphCut(s, start, previousEnd, cut));
  }

  /** Right behind a newline there is always a boundary. */
  lemma NewlineEndsScalar(s: Bytes)
    requires Text(s)
    ensures forall i | 0 < i <= |s| && s[i - 1] == NEWLINE :: Boundary(s, i)
  {
    forall i | 0 < i <= |s| && s[i - 1] == NEWLINE ensures Boundary(s, i) {
      assert Boundary(s, i - 1);
      assert ScalarAt(s, i - 1);
    }
  }

  // ---------- Coverage and progress ----------

  lemma {:induction false} FollowsAt(s: Bytes, chunks: seq<Chunk>, target: nat, overlap: nat, i: nat)
    requires Text(s) && Follows(s, chunks, target, overlap) && i < |chunks|
    ensures ChunkAt(s, StartAt(s, chunks, i, overlap), PreviousEnd(chunks, i), chunks[i], target)
  {
    var earlier := chunks[..|chunks| - 1];
    if i < |earlier| {
      FollowsAt(s, earlier, target, overlap, i);
      assert StartAt(s, earlier, i, overlap) == StartAt(s, chunks, i, overlap);
      assert PreviousEnd(earlier, i) == PreviousEnd(chunks, i);
    }
  }

  lemma NextStartBounds(s: Bytes, chunk: Chunk, overlap: nat)
    requires chunk.start < chunk.end <= |s| && Boundary(s, chunk.end)
    ensures chunk.start < NextStart(s, chunk, overlap) <= chunk.end
    ensures NextStart(s, chunk, overlap) + overlap >= chunk.end
  {}

  /** Every chunk starts behind the start of the one before, leaves no gap to it, and ends behind its end. */
  lemma ChunksAdvance(s: Bytes, chunks: seq<Chunk>, target: nat, overlap: nat, i: nat)
    requires Text(s) && Follows(s, chunks, target, overlap) && i + 1 < |chunks|
    ensures chunks[i].start < chunks[i + 1].start <= chunks[i].end < chunks[i + 1].end <= |s|
    ensures chunks[i + 1].start + overlap >= chunks[i].end
  {
    ChunkBasics(s, chunks, target, overlap, i);
    FollowsNext(s, chunks, target, overlap, i);
    NextStartBounds(s, chunks[i], overlap);
  }

  lemma FollowsNext(s: Bytes, chunks: seq<Chunk>, target: nat, overlap: nat, i: nat)
    requires Text(s) && Follows(s, chunks, target, overlap) && i + 1 < |chunks|
    ensures chunks[i + 1].start == NextStart(s, chunks[i], overlap)
    ensures chunks[i].end < chunks[i + 1].end <= |s|
  {
    FollowsAt(s, chunks, target, overlap, i + 1);
  }

  /** Chunks cover the text: every byte of it lies in some chunk, and every chunk is a whole, non-empty text. */
  lemma ChunksCover(s: Bytes, chunks: seq<Chunk>, target: nat, overlap: nat, at: nat)
    requires Text(s) && Chunking(s, chunks, target, overlap) && at < |s|
    ensures exists i | 0 <= i < |chunks| :: Holds(s, chunks[i], at)
  {
    ReachesEnd(s, chunks, target, overlap);
    UnbrokenCovers(s, chunks, at);
  }

  lemma UnbrokenCovers(s: Bytes, chunks: seq<Chunk>, at: nat)
    requires Unbroken(s, chunks) && chunks != [] && at < chunks[|chunks| - 1].end
    ensures exists i | 0 <= i < |chunks| :: Holds(s, chunks[i], at)
  {
    var i := CoveringChunk(s, chunks, at, |chunks| - 1);
  }

  lemma ReachesEnd(s: Bytes, chunks: seq<Chunk>, target: nat, overlap: nat)
    requires Text(s) && Chunking(s, chunks, target, overlap) && s != []
    ensures chunks != [] && chunks[|chunks| - 1].end == |s| && Unbroken(s, chunks)
  {
    ChunksUnbroken(s, chunks, target, overlap);
  }

  /** The chunk is a whole text and contains the byte. */
  ghost predicate Holds(s: Bytes, chunk: Chunk, at: nat) {
    chunk.start <= at < chunk.end <= |s| && Boundary(s, chunk.start) && Boundary(s, chunk.end)
  }

  /** What can be said of one chunk without looking at how it was cut. */
  lemma ChunkBasics(s: Bytes, chunks: seq<Chunk>, target: nat, overlap: nat, i: nat)
    requires Text(s) && Follows(s, chunks, target, overlap) && i < |chunks|
    ensures chunks[i].start < chunks[i].end <= |s| && PreviousEnd(chunks, i) < |s|
    ensures Boundary(s, chunks[i].start) && Boundary(s, chunks[i].end)
    ensures chunks[i].start <= PreviousEnd(chunks, i)
  {
    FollowsAt(s, chunks, target, overlap, i);
    CutsAreBoundaries(s, chunks[i].start, PreviousEnd(chunks, i), target);
  }

  /** Positions only: whole, non-empty chunks without a gap between neighbours. */
  ghost predicate Unbroken(s: Bytes, chunks: seq<Chunk>) {
    && (forall i | 0 <= i < |chunks| ::
      chunks[i].start < chunks[i].end <= |s| && Boundary(s, chunks[i].start) && Boundary(s, chunks[i].end))
    && (forall i | 0 <= i < |chunks| :: chunks[i].start <= PreviousEnd(chunks, i))
  }

  lemma ChunksUnbroken(s: Bytes, chunks: seq<Chunk>, target: nat, overlap: nat)
    requires Text(s) && Follows(s, chunks, target, overlap)
    ensures Unbroken(s, chunks)
  {
    forall i | 0 <= i < |chunks|
      ensures chunks[i].start < chunks[i].end <= |s| && Boundary(s, chunks[i].start) && Boundary(s, chunks[i].end)
      ensures chunks[i].start <= PreviousEnd(chunks, i)
    {
      ChunkBasics(s, chunks, target, overlap, i);
    }
  }

  lemma CoveringChunk(s: Bytes, chunks: seq<Chunk>, at: nat, last: nat) returns (i: nat)
    requires Unbroken(s, chunks) && last < |chunks| && at < chunks[last].end
    ensures i < |chunks| && Holds(s, chunks[i], at)
  {
    if chunks[last].start <= at {
      i := last;
    } else {
      i := CoveringChunk(s, chunks, at, last - 1);
    }
  }

  // ---------- How many chunks there can be ----------

  /** How a chunk that ends before `x` rules out further cuts before `x`. */
  datatype Quiet =
    | NoCuts
    | NoHeadings
    | OneHeading(heading: nat)

  /** Nothing that a later window could cut at lies in `(e, x)`; or no heading does; or only one heading
      does, and no blank line before it. */
  ghost predicate IsQuiet(s: Bytes, quiet: Quiet, start: nat, e: nat, x: nat) {
    match quiet
    case NoCuts =>
      && (forall h: nat | HeadingIn(s, start, h, |s|) && e < h :: h >= x)
      && (forall p: nat | ParagraphIn(s, start, p, |s|) && e < p :: p >= x)
    case NoHeadings =>
      forall h: nat | HeadingIn(s, start, h, |s|) && e < h :: h >= x
    case OneHeading(heading) =>
      && e < heading < x && HeadingIn(s, start, heading, |s|)
      && (forall h: nat | HeadingIn(s, start, h, |s|) && heading < h :: h >= x)
      && (forall p: nat | ParagraphIn(s, start, p, |s|) && e < p :: p > heading)
  }

  lemma WindowMonotone(s: Bytes, a: nat, b: nat, target: nat)
    requires a <= b <= |s|
    ensures Window(s, a, target) <= Window(s, b, target)
  {
    var x, y := Min(a + target, |s|), Min(b + target, |s|);
    assert Floor(s, x) <= y && Boundary(s, Floor(s, x));
  }

  /** A chunk that ends before its own window leaves the text quiet in one of three ways. */
  lemma ShortChunkIsQuiet(s: Bytes, start: nat, previousEnd: nat, chunk: Chunk, target: nat) returns (quiet: Quiet)
    requires Text(s) && ChunkAt(s, start, previousEnd, chunk, target)
    requires chunk.end < Window(s, start, target)
    ensures IsQuiet(s, quiet, start, chunk.end, Window(s, start, target))
  {
    var x := Window(s, start, target);
    var cut := HeadingCut(s, start, previousEnd, x);
    var heading := LastHeading(s, start, x);
    assert forall h: nat | HeadingIn(s, start, h, |s|) && h < x :: HeadingIn(s, start, h, x);
    assert forall p: nat | ParagraphIn(s, start, p, |s|) && p <= cut :: ParagraphIn(s, start, p, cut);
    if cut == x {
      quiet := NoCuts;
    } else if chunk.end < cut {
      quiet := OneHeading(cut);
    } else {
      quiet := NoHeadings;
    }
  }

  /** After a quiet chunk, the next one either reaches `x` or leaves the text quieter still. */
  lemma QuieterOrThere(s: Bytes, quiet: Quiet, from: nat, start: nat, previousEnd: nat, chunk: Chunk, target: nat,
                       x: nat)
    returns (next: Quiet)
    requires Text(s) && from <= start && ChunkAt(s, start, previousEnd, chunk, target)
    requires IsQuiet(s, quiet, from, previousEnd, x) && previousEnd < x <= Window(s, start, target)
    ensures chunk.end < x ==> IsQuiet(s, next, start, chunk.end, x)
    ensures chunk.end < x ==> quiet != NoCuts && (next == NoCuts || (next == NoHeadings && quiet.OneHeading?))
  {
    next := NoCuts;
    var window := Window(s, start, target);
    var cut := HeadingCut(s, start, previousEnd, window);
    assert forall h: nat | HeadingIn(s, start, h, |s|) :: HeadingIn(s, from, h, |s|);
    assert forall p: nat | ParagraphIn(s, start, p, |s|) :: ParagraphIn(s, from, p, |s|);
    assert forall h: nat | HeadingIn(s, start, h, window) :: HeadingIn(s, start, h, |s|);
    assert forall p: nat | ParagraphIn(s, start, p, cut) :: ParagraphIn(s, start, p, |s|);
    assert forall p: nat | ParagraphIn(s, start, p, |s|) && p <= cut :: ParagraphIn(s, start, p, cut);
    if quiet.OneHeading? {
      assert HeadingIn(s, start, quiet.heading, window);
      if cut == quiet.heading {
        next := NoHeadings;
      }
    }
  }

  /** The same for the chunk behind chunk `k`, with `x` the window of an earlier chunk `i`. */
  lemma NextQuieterOrThere(s: Bytes, chunks: seq<Chunk>, target: nat, overlap: nat, i: nat, k: nat, quiet: Quiet)
    returns (next: Quiet)
    requires Text(s) && Follows(s, chunks, target, overlap) && i <= k && k + 1 < |chunks|
    requires chunks[i].start <= chunks[k].start
    requires var x := Window(s, chunks[i].start, target);
      chunks[k].end < x ==> IsQuiet(s, quiet, chunks[k].start, chunks[k].end, x)
    ensures chunks[i].start <= chunks[k + 1].start
    ensures var x := Window(s, chunks[i].start, target);
      && (chunks[k].end >= x ==> chunks[k + 1].end >= x)
      && (chunks[k + 1].end < x ==>
            && IsQuiet(s, next, chunks[k + 1].start, chunks[k + 1].end, x)
            && quiet != NoCuts && (next == NoCuts || (next == NoHeadings && quiet.OneHeading?)))
  {
    next := NoCuts;
    ChunksAdvance(s, chunks, target, overlap, k);
    if chunks[k].end < Window(s, chunks[i].start, target) {
      FollowsAt(s, chunks, target, overlap, k + 1);
      WindowMonotone(s, chunks[i].start, chunks[k + 1].start, target);
      next := QuieterOrThere(s, quiet, chunks[k].start, chunks[k + 1].start, chunks[k].end, chunks[k + 1], target,
                             Window(s, chunks[i].start, target));
    }
  }

  lemma FirstQuiet(s: Bytes, chunks: seq<Chunk>, target: nat, overlap: nat, i: nat) returns (quiet: Quiet)
    requires Text(s) && Follows(s, chunks, target, overlap) && i < |chunks|
    ensures var x := Window(s, chunks[i].start, target);
      chunks[i].end < x ==> IsQuiet(s, quiet, chunks[i].start, chunks[i].end, x)
  {
    quiet := NoCuts;
    FollowsAt(s, chunks, target, overlap, i);
    if chunks[i].end < Window(s, chunks[i].start, target) {
      quiet := ShortChunkIsQuiet(s, chunks[i].start, PreviousEnd(chunks, i), chunks[i], target);
    }
  }

  /** Whatever headings and blank lines do, the chunk three after chunk `i` reaches the window of chunk `i`. */
  lemma ThreeAfterReachesWindow(s: Bytes, chunks: seq<Chunk>, target: nat, overlap: nat, i: nat)
    requires Text(s) && Follows(s, chunks, target, overlap) && i + 3 < |chunks|
    ensures chunks[i + 3].end >= Window(s, chunks[i].start, target)
  {
    var first := FirstQuiet(s, chunks, target, overlap, i);
    var second := NextQuieterOrThere(s, chunks, target, overlap, i, i, first);
    var third := NextQuieterOrThere(s, chunks, target, overlap, i, i + 1, second);
    var fourth := NextQuieterOrThere(s, chunks, target, overlap, i, i + 2, third);
  }

  /** Four chunks further the start has moved by the target less the overlap and three bytes. */
  lemma FourFurther(s: Bytes, chunks: seq<Chunk>, target: nat, overlap: nat, i: nat)
    requires Text(s) && Follows(s, chunks, target, overlap) && i + 4 < |chunks|
    ensures chunks[i + 4].start + overlap + 3 >= chunks[i].start + target
  {
    ThreeAfterReachesWindow(s, chunks, target, overlap, i);
    ChunksAdvance(s, chunks, target, overlap, i + 3);
    FloorIsNear(s, Min(chunks[i].start + target, |s|));
    assert Floor(s, |s|) == |s|;
  }

  /** `k` steps of `d` bytes. */
  function Steps(k: nat, d: nat): nat {
    if k == 0 then 0 else Steps(k - 1, d) + d
  }

  lemma {:induction false} StepsAreProduct(k: nat, d: nat)
    ensures Steps(k, d) == k * d
  {
    if k > 0 {
      StepsAreProduct(k - 1, d);
      StepsProduct(k, d);
    }
  }

  lemma StepsProduct(k: nat, d: nat)
    requires k > 0
    ensures k * d == (k - 1) * d + d
  {}

  /** Every fourth element is at least `d` larger. */
  ghost predicate GrowsByFours(starts: seq<nat>, d: nat) {
    forall i | 0 <= i && i + 4 < |starts| :: starts[i + 4] >= starts[i] + d
  }

  lemma {:induction false} FoursAddUp(starts: seq<nat>, i: nat, k: nat, d: nat)
    requires GrowsByFours(starts, d) && i < |starts| && i == k + k + k + k
    ensures starts[i] >= Steps(k, d)
    decreases k
  {
    if k > 0 {
      FoursAddUp(starts, i - 4, k - 1, d);
      assert starts[(i - 4) + 4] >= starts[i - 4] + d;
    }
  }

  function Starts(chunks: seq<Chunk>): (r: seq<nat>)
    ensures |r| == |chunks| && forall i | 0 <= i < |chunks| :: r[i] == chunks[i].start
  {
    seq(|chunks|, i requires 0 <= i < |chunks| => chunks[i].start)
  }

  lemma StartsGrow(s: Bytes, chunks: seq<Chunk>, target: nat, overlap: nat)
    requires Text(s) && Follows(s, chunks, target, overlap) && target > overlap + 3
    ensures GrowsByFours(Starts(chunks), target - overlap - 3)
  {
    forall i | 0 <= i && i + 4 < |chunks| ensures chunks[i + 4].start + overlap + 3 >= chunks[i].start + target {
      FourFurther(s, chunks, target, overlap, i);
    }
  }

  lemma CountFromStarts(starts: seq<nat>, length: nat, d: nat)
    requires GrowsByFours(starts, d) && d > 0 && length > 0
    requires forall i | 0 <= i < |starts| :: starts[i] < length
    ensures |starts| <= 4 * ((length - 1) / d + 1)
  {
    if starts != [] {
      var k := (|starts| - 1) / 4;
      var i := k + k + k + k;
      FoursAddUp(starts, i, k, d);
      StepsAreProduct(k, d);
      assert starts[i] <= length - 1;
      QuotientBound(length - 1, d, k);
    }
  }

  /** The number of chunks is linear in the length of the text, for any structure it may have. */
  lemma ChunkCountBound(s: Bytes, chunks: seq<Chunk>, target: nat, overlap: nat)
    requires Text(s) && Follows(s, chunks, target, overlap) && s != []
    requires target > overlap + 3
    ensures |chunks| <= 4 * ((|s| - 1) / (target - overlap - 3) + 1)
  {
    StartsGrow(s, chunks, target, overlap);
    forall i | 0 <= i < |chunks| ensures Starts(chunks)[i] < |s| {
      ChunkBasics(s, chunks, target, overlap, i);
    }
    CountFromStarts(Starts(chunks), |s|, target - overlap - 3);
  }

  lemma {:induction false} ProductMonotone(a: nat, b: nat, d: nat)
    requires a <= b
    ensures a * d <= b * d
  {
    if a < b {
      ProductMonotone(a, b - 1, d);
      StepsProduct(b, d);
    }
  }

  lemma QuotientBound(n: nat, d: nat, k: nat)
    requires d > 0 && k * d <= n
    ensures k <= n / d
  {
    var q := n / d;
    assert n < q * d + d;
    StepsProduct(q + 1, d);
    if k > q {
      ProductMonotone(q + 1, k, d);
    }
  }
}
