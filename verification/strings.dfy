/** Strings as sequences of Unicode scalar values: trimming, searching and ordering. */
module Strings {
  import opened Prelude

  /** The Unicode White_Space property, which is what trimming strips. */
  predicate WhiteSpaceCode(n: nat) {
    9 <= n <= 13 || n == 0x20 || n == 0x85 || n == 0xA0 || n == 0x1680 || 0x2000 <= n <= 0x200A ||
    n == 0x2028 || n == 0x2029 || n == 0x202F || n == 0x205F || n == 0x3000
  }

  predicate IsWhitespace(c: char) {
    WhiteSpaceCode(c as int)
  }

  function TrimStart(s: string): (r: string)
    ensures |r| <= |s|
  {
    if s != [] && IsWhitespace(s[0]) then TrimStart(s[1..]) else s
  }

  function TrimEnd(s: string): (r: string)
    ensures |r| <= |s| && r <= s
  {
    if s != [] && IsWhitespace(s[|s| - 1]) then TrimEnd(s[..|s| - 1]) else s
  }

  function Trim(s: string): string {
    TrimEnd(TrimStart(s))
  }

  predicate Trimmed(s: string) {
    s == [] || (!IsWhitespace(s[0]) && !IsWhitespace(s[|s| - 1]))
  }

  lemma TrimStartTrims(s: string)
    ensures var r := TrimStart(s); r == [] || !IsWhitespace(r[0])
  {}

  lemma TrimEndTrims(s: string)
    ensures var r := TrimEnd(s); r == [] || (!IsWhitespace(r[|r| - 1]) && r[0] == s[0])
  {}

  /** Trimming yields a trimmed string and changes nothing that is already trimmed. */
  lemma TrimIdempotent(s: string)
    ensures Trimmed(Trim(s))
    ensures Trimmed(s) ==> Trim(s) == s
    ensures Trim(Trim(s)) == Trim(s)
  {
    TrimStartTrims(s);
    TrimEndTrims(TrimStart(s));
    var r := Trim(s);
    assert TrimStart(r) == r && TrimEnd(r) == r;
  }

  predicate StartsWith(s: string, prefix: string) {
    prefix <= s
  }

  /** What is left of `s` once `prefix` is taken off, if it is a prefix. */
  function StripPrefix(s: string, prefix: string): Option<string> {
    if prefix <= s then Some(s[|prefix|..]) else None
  }

  /** The parts between slashes; at least one, possibly empty. */
  function SplitSlash(s: string): (parts: seq<string>)
    ensures parts != []
  {
    if s == [] then [""]
    else if s[0] == '/' then [""] + SplitSlash(s[1..])
    else
      var rest := SplitSlash(s[1..]);
      [[s[0]] + rest[0]] + rest[1..]
  }

  predicate Contains(s: string, part: string) {
    exists i | 0 <= i <= |s| :: part <= s[i..]
  }

  /** The last position at which `part` occurs in `s`. */
  function LastIndexOf(s: string, part: string): (r: Option<nat>)
    ensures r.Some? ==> r.value <= |s| && part <= s[r.value..]
  {
    LastIndexUpTo(s, part, |s|)
  }

  function LastIndexUpTo(s: string, part: string, bound: nat): (r: Option<nat>)
    requires bound <= |s|
    ensures r.Some? ==> r.value <= bound && part <= s[r.value..]
    ensures forall i | (if r.Some? then r.value + 1 else 0) <= i <= bound :: !(part <= s[i..])
  {
    if part <= s[bound..] then Some(bound)
    else if bound == 0 then None
    else LastIndexUpTo(s, part, bound - 1)
  }

  /** Strings compare scalar by scalar, which is also the order of their UTF-8 bytes. */
  predicate Less(a: string, b: string) {
    if b == [] then false
    else if a == [] then true
    else if a[0] != b[0] then a[0] < b[0]
    else Less(a[1..], b[1..])
  }

  lemma LessIrreflexive(a: string)
    ensures !Less(a, a)
  {}

  lemma LessTransitive(a: string, b: string, c: string)
    requires Less(a, b) && Less(b, c)
    ensures Less(a, c)
  {}

  lemma LessTotal(a: string, b: string)
    ensures Less(a, b) || a == b || Less(b, a)
  {
    if a != [] && b != [] && a[0] == b[0] {
      LessTotal(a[1..], b[1..]);
      assert a == [a[0]] + a[1..] && b == [b[0]] + b[1..];
    }
  }

  predicate StrictlySorted(s: seq<string>) {
    forall i, j | 0 <= i < j < |s| :: Less(s[i], s[j])
  }

  /** Inserts `x` into an ordered list, dropping it when it is already there. */
  function InsertUnique(x: string, s: seq<string>): (r: seq<string>)
    requires StrictlySorted(s)
    ensures StrictlySorted(r)
    ensures forall y :: y in r <==> y == x || y in s
  {
    if s == [] then [x]
    else if x == s[0] then s
    else if Less(x, s[0]) then
      assert forall j | 0 < j < |s| :: Less(x, s[j]) by {
        forall j | 0 < j < |s| ensures Less(x, s[j]) { LessTransitive(x, s[0], s[j]); }
      }
      [x] + s
    else
      var rest := InsertUnique(x, s[1..]);
      assert s == [s[0]] + s[1..];
      assert Less(s[0], x) by { LessTotal(x, s[0]); }
      assert forall y | y in rest :: Less(s[0], y);
      [s[0]] + rest
  }

  /** A sort followed by removal of adjacent duplicates. */
  function SortDedup(xs: seq<string>): (r: seq<string>)
    ensures StrictlySorted(r)
    ensures forall y :: y in r <==> y in xs
  {
    if xs == [] then [] else
      assert xs == [xs[0]] + xs[1..];
      InsertUnique(xs[0], SortDedup(xs[1..]))
  }

  /** An ordered duplicate-free list is determined by its elements. */
  lemma {:induction false} SortedUnique(a: seq<string>, b: seq<string>)
    requires StrictlySorted(a) && StrictlySorted(b)
    requires forall y :: y in a <==> y in b
    ensures a == b
  {
    assert a != [] ==> a[0] in b;
    assert b != [] ==> b[0] in a;
    if a != [] {
      HeadsAgree(a, b);
      HeadsAgree(b, a);
      LessIrreflexive(a[0]);
      assert a[0] == b[0] by {
        LessTotal(a[0], b[0]);
        if Less(a[0], b[0]) { LessTransitive(a[0], b[0], a[0]); }
      }
      assert a == [a[0]] + a[1..] && b == [b[0]] + b[1..];
      forall y ensures y in a[1..] <==> y in b[1..] {
        assert y in a <==> y in b;
        assert a[0] !in a[1..] && b[0] !in b[1..] by { NoRepeat(a); NoRepeat(b); }
      }
      SortedUnique(a[1..], b[1..]);
    }
  }

  lemma HeadsAgree(a: seq<string>, b: seq<string>)
    requires StrictlySorted(a) && StrictlySorted(b) && a != [] && b != []
    requires forall y | y in a :: y in b
    ensures b[0] == a[0] || Less(b[0], a[0])
  {
    assert a[0] in b;
    var k :| 0 <= k < |b| && b[k] == a[0];
  }

  lemma NoRepeat(a: seq<string>)
    requires StrictlySorted(a) && a != []
    ensures a[0] !in a[1..]
  {
    LessIrreflexive(a[0]);
  }
}
