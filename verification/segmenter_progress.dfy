/** How far segmentation gets: ends never fall back, and with bytes as tokens the overlap never stalls it. */
module SegmenterProgress {
  import opened Prelude
  import opened Utf8
  import opened Segmenter

  // ---------- Any monotone counter ----------

  /** What ends a break for a later start also ends it for an earlier one. */
  lemma BreakForEarlierStart(kind: Break, s: Bytes, start: nat, later: nat, e: nat)
    requires Text(s) && start <= later && EndsAt(kind, s, later, e)
    ensures EndsAt(kind, s, start, e)
  {}

  lemma FitsInside(s: Bytes, p: Provider, budget: Usize, start: nat, end: nat, later: nat, e: nat)
    requires Monotone(p, s) && start <= end <= |s| && start <= later <= e <= |s| && FitsAt(s, start, end, p, budget)
    ensures e <= end ==> FitsAt(s, later, e, p, budget)
  {
    if e <= end {
      assert p.Tokens(s[later..e]) <= p.Tokens(s[start..end]);
    }
  }

  /** A later start in the same text reaches at least as far. */
  lemma FurtherFromLater(s: Bytes, p: Provider, budget: Usize, start: nat, maxEnd: nat, later: nat, laterEnd: nat)
    requires Text(s) && Monotone(p, s) && start <= later
    requires Furthest(s, start, maxEnd, p, budget) && Furthest(s, later, laterEnd, p, budget)
    ensures maxEnd <= laterEnd
  {
    if laterEnd < |s| {
      FitsInside(s, p, budget, start, maxEnd, later, After(s, laterEnd));
    }
  }

  /** The choice at a cut that is not the end of the text, as one of four cases. */
  ghost predicate ChosenAs(kind: Option<Break>, s: Bytes, start: nat, maxEnd: nat, r: nat)
    requires Text(s) && start < maxEnd
  {
    match kind
    case None =>
      && r == maxEnd && NoneOf(Paragraph, s, start, maxEnd)
      && NoneOf(Line, s, start, maxEnd) && NoneOf(Space, s, start, maxEnd)
    case Some(Paragraph) => LastOf(Paragraph, s, start, maxEnd, r)
    case Some(Line) => LastOf(Line, s, start, maxEnd, r) && NoneOf(Paragraph, s, start, maxEnd)
    case Some(Space) =>
      && LastOf(Space, s, start, maxEnd, r)
      && NoneOf(Paragraph, s, start, maxEnd) && NoneOf(Line, s, start, maxEnd)
  }

  lemma Choice(s: Bytes, start: nat, maxEnd: nat) returns (kind: Option<Break>)
    requires Text(s) && start < maxEnd < |s| && Boundary(s, start) && Boundary(s, maxEnd)
    ensures ChosenAs(kind, s, start, maxEnd, PreferredBoundary(s, start, maxEnd))
  {
    PreferredIsBest(s, start, maxEnd);
    if !NoneOf(Paragraph, s, start, maxEnd) {
      kind := Some(Paragraph);
    } else if !NoneOf(Line, s, start, maxEnd) {
      kind := Some(Line);
    } else if !NoneOf(Space, s, start, maxEnd) {
      kind := Some(Space);
    } else {
      kind := None;
    }
  }

  /** A paragraph end behind another one that starts late enough also starts late enough. */
  lemma LaterParagraphCounts(s: Bytes, start: nat, later: nat, e: nat, r: nat)
    requires Text(s) && ParagraphEnd(s, start, r) && ParagraphEnd(s, later, e)
    ensures e < r ==> ParagraphEnd(s, later, r)
  {
    assert EndsWith(s, start, r, CRLF_BREAK) ==> s[r - 2] == s[r - 4..r][2] == RETURN;
    assert EndsWith(s, later, e, LF_BREAK) ==> s[e - 1] == s[e - 2..e][1] == NEWLINE;
  }

  lemma NewlineIsLineEnd(s: Bytes, start: nat, e: nat)
    requires Text(s) && (ParagraphEnd(s, start, e) || LineEnd(s, start, e))
    ensures forall later: nat | later < e :: LineEnd(s, later, e)
  {
    assert EndsWith(s, start, e, LF_BREAK) ==> s[e - 1] == s[e - 2..e][1] == NEWLINE;
    assert EndsWith(s, start, e, CRLF_BREAK) ==> s[e - 1] == s[e - 4..e][3] == NEWLINE;
    assert EndsWith(s, start, e, [NEWLINE]) ==> s[e - 1] == s[e - 1..e][0] == NEWLINE;
    assert s[e - 1..e] == [NEWLINE];
  }

  lemma SpaceBehind(s: Bytes, start: nat, later: nat, e: nat, r: nat)
    requires Text(s) && SpaceEnd(s, start, r) && Boundary(s, e) && later <= e
    ensures e < r ==> SpaceEnd(s, later, r)
  {
    assert e < r ==> Before(s, r) >= e;
  }

  /** The preferred boundary of a later, further window is no nearer. */
  lemma PreferredNeverFalls(s: Bytes, start: nat, maxEnd: nat, later: nat, laterEnd: nat)
    requires Text(s) && start <= later < laterEnd < |s| && maxEnd <= laterEnd && start < maxEnd
    requires Boundary(s, start) && Boundary(s, maxEnd) && Boundary(s, later) && Boundary(s, laterEnd)
    ensures PreferredBoundary(s, start, maxEnd) <= PreferredBoundary(s, later, laterEnd)
  {
    var r, e := PreferredBoundary(s, start, maxEnd), PreferredBoundary(s, later, laterEnd);
    var first := Choice(s, start, maxEnd);
    var second := Choice(s, later, laterEnd);
    if second.Some? {
      BreakForEarlierStart(second.value, s, start, later, e);
      if second.value == Paragraph {
        AfterParagraph(s, start, maxEnd, later, laterEnd, r, e, first);
      } else {
        AfterLineOrSpace(s, start, maxEnd, later, laterEnd, r, e, first, second.value);
      }
    }
  }

  lemma AfterParagraph(s: Bytes, start: nat, maxEnd: nat, later: nat, laterEnd: nat, r: nat, e: nat,
                       first: Option<Break>)
    requires Text(s) && start <= later < laterEnd && start < maxEnd <= laterEnd
    requires ChosenAs(first, s, start, maxEnd, r) && LastOf(Paragraph, s, later, laterEnd, e) && r <= maxEnd
    requires Middle(start, maxEnd) <= e && EndsAt(Paragraph, s, start, e)
    ensures r <= e
  {
    assert e < r ==> first == Some(Paragraph);
    if first == Some(Paragraph) {
      assert EndsAt(Paragraph, s, start, r) && EndsAt(Paragraph, s, later, e);
      LaterParagraphCounts(s, start, later, e, r);
      assert e < r ==> EndsAt(Paragraph, s, later, r);
    }
  }

  lemma AfterLineOrSpace(s: Bytes, start: nat, maxEnd: nat, later: nat, laterEnd: nat, r: nat, e: nat,
                         first: Option<Break>, second: Break)
    requires Text(s) && start <= later < laterEnd && start < maxEnd <= laterEnd && Boundary(s, e) && later < e
    requires ChosenAs(first, s, start, maxEnd, r) && ChosenAs(Some(second), s, later, laterEnd, e) && r <= maxEnd
    requires second != Paragraph && Middle(start, maxEnd) <= e && Middle(later, laterEnd) <= e
    requires EndsAt(second, s, start, e)
    ensures r <= e
  {
    assert e < r ==> first.Some?;
    if first.Some? {
      assert EndsAt(first.value, s, start, r);
      if first.value == Space {
        assert e < r ==> second == Space;
        SpaceBehind(s, start, later, e, r);
        assert SpaceEnd(s, later, r) == EndsAt(Space, s, later, r);
      } else {
        NewlineIsLineEnd(s, start, r);
        assert later < r ==> LineEnd(s, later, r);
        assert LineEnd(s, later, r) == EndsAt(Line, s, later, r);
      }
    }
  }

  /** No segment ends before the segment in front of it. */
  lemma EndsNeverFall(s: Bytes, p: Provider, budget: Usize, overlap: Usize, range: Range, next: Range)
    requires Text(s) && Monotone(p, s)
    requires RangeAt(s, p, budget, range) && RangeAt(s, p, budget, next) && range.end < |s|
    requires Continues(s, p, overlap, range, next.start)
    ensures range.end <= next.end
  {
    NextAdvances(s, p, budget, overlap, range, next.start);
    var maxEnd: nat :| Furthest(s, range.start, maxEnd, p, budget)
      && range.end == PreferredBoundary(s, range.start, maxEnd);
    var nextMax: nat :| Furthest(s, next.start, nextMax, p, budget)
      && next.end == PreferredBoundary(s, next.start, nextMax);
    FurtherFromLater(s, p, budget, range.start, maxEnd, next.start, nextMax);
    if nextMax < |s| {
      PreferredNeverFalls(s, range.start, maxEnd, next.start, nextMax);
    }
  }

  // ---------- Bytes as tokens ----------

  /** Every byte is a token, and preparing a document puts a fixed prefix before it. */
  ghost predicate ByteCounted(p: Provider, prefix: Bytes) {
    && (forall t: Bytes | |t| <= MAX_USIZE :: p.count(t) == |t|)
    && (forall t: Bytes :: p.prepare(t) == prefix + t)
  }

  lemma TokensAreBytes(p: Provider, prefix: Bytes, t: Bytes)
    requires ByteCounted(p, prefix) && |prefix| + |t| <= MAX_USIZE
    ensures p.Tokens(t) == |prefix| + |t| && p.count(t) == |t|
  {}

  lemma BytesAreMonotone(p: Provider, prefix: Bytes, s: Bytes)
    requires ByteCounted(p, prefix) && |prefix| + |s| <= MAX_USIZE
    ensures Monotone(p, s)
  {
    forall a, b, c, d | 0 <= a <= b <= c <= d <= |s|
      ensures p.Tokens(s[b..c]) <= p.Tokens(s[a..d]) && p.count(s[b..c]) <= p.count(s[a..d])
    {
      TokensAreBytes(p, prefix, s[b..c]);
      TokensAreBytes(p, prefix, s[a..d]);
    }
  }

  /** Whatever the budget, with bytes as tokens each segment fills no more than what the prefix leaves of it, and
      ends and overlaps are as for any monotone counter. */
  lemma ByteSegmentsBounded(s: Bytes, p: Provider, prefix: Bytes, budget: Usize, overlap: Usize, ranges: seq<Range>,
                            i: nat)
    requires Text(s) && ByteCounted(p, prefix) && |prefix| + |s| <= MAX_USIZE
    requires Chain(s, p, budget, overlap, ranges) && i < |ranges|
    ensures 0 < ranges[i].end - ranges[i].start <= budget - |prefix|
    ensures i + 1 < |ranges| ==> ranges[i].end <= ranges[i + 1].end
    ensures i + 1 < |ranges| ==> ranges[i].end - overlap <= ranges[i + 1].start <= ranges[i].end
  {
    var range := ranges[i];
    BytesAreMonotone(p, prefix, s);
    RangeInChain(s, p, budget, overlap, ranges, i);
    SegmentsFit(s, p, budget, range);
    TokensAreBytes(p, prefix, s[range.start..range.end]);
    if i + 1 < |ranges| {
      var next := ranges[i + 1];
      Neighbours(s, p, budget, overlap, ranges, i);
      EndsNeverFall(s, p, budget, overlap, range, next);
      OverlapBounded(s, p, budget, overlap, range, next.start);
      TokensAreBytes(p, prefix, s[next.start..range.end]);
    }
  }

  /** With a usable budget of four bytes or more no scalar is ever too large. */
  lemma FourBytesHoldAScalar(s: Bytes, p: Provider, prefix: Bytes, budget: Usize, i: nat)
    requires Text(s) && ByteCounted(p, prefix) && |prefix| + |s| <= MAX_USIZE && budget >= |prefix| + 4
    ensures !ScalarMisfit(s, p, budget, i)
  {
    if i < |s| && Boundary(s, i) {
      TokensAreBytes(p, prefix, s[i..After(s, i)]);
    }
  }

  /** A segment that is not the last holds at least half of what a full one would, less a scalar. */
  lemma ByteLength(s: Bytes, p: Provider, prefix: Bytes, budget: Usize, range: Range)
    requires Text(s) && ByteCounted(p, prefix) && |prefix| + |s| <= MAX_USIZE && budget >= |prefix| + 9
    requires RangeAt(s, p, budget, range) && range.end < |s|
    ensures range.end >= range.start + (budget - |prefix| - 3) / 2
  {
    var maxEnd: nat :| Furthest(s, range.start, maxEnd, p, budget)
      && range.end == PreferredBoundary(s, range.start, maxEnd);
    TokensAreBytes(p, prefix, s[range.start..After(s, maxEnd)]);
    assert maxEnd - range.start >= budget - |prefix| - 3;
  }

  /** The overlap always leaves the next start ahead: the one-scalar fallback is never taken. */
  lemma OverlapLeavesProgress(s: Bytes, p: Provider, prefix: Bytes, budget: Usize, overlap: Usize, range: Range, r: nat)
    requires Text(s) && ByteCounted(p, prefix) && |prefix| + |s| <= MAX_USIZE && budget >= |prefix| + 9
    requires RangeAt(s, p, budget, range) && range.end < |s|
    requires OverlapFrom(s, range.start, range.end, p, EffectiveOverlap(p, budget, overlap), r)
    ensures r >= range.end - (budget - |prefix|) / 4
    ensures r > range.start
  {
    ByteLength(s, p, prefix, budget, range);
    TokensAreBytes(p, prefix, []);
    if r < range.end {
      TokensAreBytes(p, prefix, s[r..range.end]);
    }
  }

  /** One step with bytes as tokens: starts advance by a fixed amount and ends strictly increase. */
  lemma ByteStep(s: Bytes, p: Provider, prefix: Bytes, budget: Usize, overlap: Usize, range: Range, next: Range)
    requires Text(s) && ByteCounted(p, prefix) && |prefix| + |s| <= MAX_USIZE && budget >= |prefix| + 9
    requires RangeAt(s, p, budget, range) && RangeAt(s, p, budget, next) && range.end < |s|
    requires Continues(s, p, EffectiveOverlap(p, budget, overlap), range, next.start)
    ensures next.start >= range.start + ByteAdvance(budget - |prefix|)
    ensures next.end > range.end
  {
    var r: nat :| OverlapFrom(s, range.start, range.end, p, EffectiveOverlap(p, budget, overlap), r)
               && next.start == if r > range.start then r else After(s, range.start);
    OverlapLeavesProgress(s, p, prefix, budget, overlap, range, r);
    ByteLength(s, p, prefix, budget, range);
    RangeInside(s, p, budget, next);
    if next.end < |s| {
      ByteLength(s, p, prefix, budget, next);
    }
  }

  /** How many bytes each step gains at least. */
  function ByteAdvance(usable: nat): (r: nat)
    requires usable >= 9
    ensures r >= 1
  {
    (usable - 3) / 2 - usable / 4
  }

  lemma Steps(n: nat, d: nat, before: nat, after: nat)
    requires n >= 2 && before >= (n - 2) * d && after >= before + d
    ensures after >= (n - 1) * d
  {
    assert (n - 1) * d == (n - 2) * d + d;
  }

  /** All of it over a whole text: the number of segments is linear in its length. */
  lemma {:induction false} ByteSegmentsLinear(s: Bytes, p: Provider, prefix: Bytes, budget: Usize, overlap: Usize,
                                              ranges: seq<Range>)
    requires Text(s) && ByteCounted(p, prefix) && |prefix| + |s| <= MAX_USIZE && budget >= |prefix| + 9
    requires p.PrefixTokens() < budget && Chain(s, p, budget, EffectiveOverlap(p, budget, overlap), ranges)
    requires |ranges| > 0
    ensures (|ranges| - 1) * ByteAdvance(budget - |prefix|) <= ranges[|ranges| - 1].start < |s|
  {
    var n := |ranges|;
    RangeInChain(s, p, budget, EffectiveOverlap(p, budget, overlap), ranges, n - 1);
    if n > 1 {
      ByteSegmentsLinear(s, p, prefix, budget, overlap, ranges[..n - 1]);
      Neighbours(s, p, budget, EffectiveOverlap(p, budget, overlap), ranges, n - 2);
      ByteStep(s, p, prefix, budget, overlap, ranges[n - 2], ranges[n - 1]);
      Steps(n, ByteAdvance(budget - |prefix|), ranges[n - 2].start, ranges[n - 1].start);
    }
  }

  /** Texts like "a", a newline, a scalar of three bytes and one of four. */
  predicate Tight(s: Bytes) {
    && |s| == 9 && s[0] < 0x80 && s[0] != NEWLINE && s[0] != RETURN && s[1] == NEWLINE
    && LeadWidth(s[2]) == 3 && Continuation(s[3]) && Continuation(s[4])
    && LeadWidth(s[5]) == 4 && Continuation(s[6]) && Continuation(s[7]) && Continuation(s[8])
  }

  const TIGHT_TEXT: Bytes := [97, 10, 0xE2, 0x82, 0xAC, 0xF0, 0x9F, 0x98, 0x80]

  lemma TightIsText(s: Bytes)
    requires Tight(s)
    ensures Text(s) && Boundary(s, 1) && Boundary(s, 2) && Boundary(s, 5) && After(s, 0) == 1 && After(s, 5) == 9
    ensures NewlineSecond(s)
  {
    assert ScalarAt(s, 0) && ScalarAt(s, 1) && ScalarAt(s, 2) && ScalarAt(s, 5);
  }

  lemma EndingByte(s: Bytes, start: nat, e: nat, part: Bytes, i: nat)
    requires i < |part|
    ensures EndsWith(s, start, e, part) ==> |part| <= e <= |s| && s[e - |part| + i] == part[i]
  {
    if EndsWith(s, start, e, part) {
      assert s[e - |part|..e][i] == s[e - |part| + i];
    }
  }

  /** The only newline of the first five bytes is the second byte, and no carriage return precedes it. */
  predicate NewlineSecond(s: Bytes) {
    |s| >= 5 && s[0] != NEWLINE && s[0] != RETURN && s[1] == NEWLINE && s[2] != NEWLINE && s[3] != NEWLINE
      && s[4] != NEWLINE
  }

  lemma OnlyLineEnd(s: Bytes, e: nat)
    requires NewlineSecond(s) && e <= 5
    ensures EndsWith(s, 0, e, [NEWLINE]) <==> e == 2
  {
    var line := [NEWLINE];
    assert s[1..2] == line;
    EndingByte(s, 0, e, line, 0);
  }

  lemma NoParagraphEnd(s: Bytes, e: nat)
    requires NewlineSecond(s) && e <= 5
    ensures !EndsWith(s, 0, e, LF_BREAK) && !EndsWith(s, 0, e, CRLF_BREAK)
  {
    var lf, crlf := LF_BREAK, CRLF_BREAK;
    EndingByte(s, 0, e, lf, 0);
    EndingByte(s, 0, e, lf, 1);
    EndingByte(s, 0, e, crlf, 0);
    EndingByte(s, 0, e, crlf, 1);
  }

  lemma TightCut(s: Bytes)
    requires NewlineSecond(s) && |s| > 5 && Text(s) && Boundary(s, 5)
    ensures PreferredBoundary(s, 0, 5) == 2
  {
    forall e: nat | e <= 5
      ensures !EndsWith(s, 0, e, LF_BREAK) && !EndsWith(s, 0, e, CRLF_BREAK)
      ensures (EndsWith(s, 0, e, [NEWLINE]) <==> e == 2)
    {
      NoParagraphEnd(s, e);
      OnlyLineEnd(s, e);
    }
    var lf, crlf, line := LastEnd(s, 0, 5, LF_BREAK), LastEnd(s, 0, 5, CRLF_BREAK), LastEnd(s, 0, 5, [NEWLINE]);
    assert EndsWith(s, 0, 2, [NEWLINE]);
    assert lf.None? && crlf.None? && line == Some(2);
  }

  /** Nine is the least such budget: with eight usable bytes such a text makes the overlap reach back to
      the start of its segment, so that only the one-scalar fallback moves on. */
  lemma EightIsTooFew(p: Provider, s: Bytes)
    requires ByteCounted(p, []) && Tight(s)
    ensures Text(s) && Furthest(s, 0, 5, p, 8) && PreferredBoundary(s, 0, 5) == 2
    ensures p.PrefixTokens() == 0 && EffectiveOverlap(p, 8, 2) == 2 && OverlapFrom(s, 0, 2, p, 2, 0)
  {
    TightIsText(s);
    TightCut(s);
    TokensAreBytes(p, [], []);
    TokensAreBytes(p, [], s[0..5]);
    TokensAreBytes(p, [], s[0..9]);
    TokensAreBytes(p, [], s[0..2]);
    TokensAreBytes(p, [], s[1..2]);
  }

  /** One such text, of nine bytes. */
  lemma NineByteExample(p: Provider)
    requires ByteCounted(p, [])
    ensures Text(TIGHT_TEXT) && Furthest(TIGHT_TEXT, 0, 5, p, 8) && PreferredBoundary(TIGHT_TEXT, 0, 5) == 2
    ensures p.PrefixTokens() == 0 && EffectiveOverlap(p, 8, 2) == 2 && OverlapFrom(TIGHT_TEXT, 0, 2, p, 2, 0)
  {
    EightIsTooFew(p, TIGHT_TEXT);
  }
}
