/** UTF-8 text as bytes, and the positions at which it may be cut. */
module Utf8 {
  newtype Byte = x: int | 0 <= x < 256

  type Bytes = seq<Byte>

  const NEWLINE: Byte := 10

  predicate Continuation(b: Byte) {
    0x80 <= b < 0xC0
  }

  /** How many bytes a scalar that starts with `b` takes; 0 for a byte that cannot start one. */
  function LeadWidth(b: Byte): nat {
    if b < 0x80 then 1
    else if 0xC2 <= b < 0xE0 then 2
    else if 0xE0 <= b < 0xF0 then 3
    else if 0xF0 <= b < 0xF5 then 4
    else 0
  }

  /** Whether `i` is at an end of the text or at the first byte of a scalar. */
  predicate Boundary(s: Bytes, i: int) {
    i == 0 || i == |s| || (0 < i < |s| && !Continuation(s[i]))
  }

  /** A whole scalar starts at `i` and the next boundary is right behind it. */
  predicate ScalarAt(s: Bytes, i: nat)
    requires i < |s|
  {
    var w := LeadWidth(s[i]);
    w > 0 && i + w <= |s| && Boundary(s, i + w) && forall k | i < k < i + w :: Continuation(s[k])
  }

  /** Every text the program handles is a run of whole scalars. Which second bytes a lead admits does
      not matter here, so this allows somewhat more than well-formed UTF-8. */
  predicate Text(s: Bytes) {
    forall i {:trigger ScalarAt(s, i)} | 0 <= i < |s| && Boundary(s, i) :: ScalarAt(s, i)
  }

  /** The boundary behind a boundary is at most four bytes further. */
  function After(s: Bytes, i: nat): (j: nat)
    requires Text(s) && i < |s| && Boundary(s, i)
    ensures i < j <= |s| && j <= i + 4 && Boundary(s, j)
    ensures forall k | i < k < j :: !Boundary(s, k)
  {
    assert ScalarAt(s, i);
    i + LeadWidth(s[i])
  }

  /** The last boundary at or before `i`. */
  function Floor(s: Bytes, i: nat): (r: nat)
    requires i <= |s|
    ensures r <= i && Boundary(s, r)
    ensures forall k | r < k <= i :: !Boundary(s, k)
  {
    if Boundary(s, i) then i else Floor(s, i - 1)
  }

  /** The boundary before a boundary. */
  function Before(s: Bytes, i: nat): (r: nat)
    requires Text(s) && 0 < i <= |s| && Boundary(s, i)
    ensures r < i && Boundary(s, r) && After(s, r) == i
    ensures forall k | r < k < i :: !Boundary(s, k)
  {
    var r := Floor(s, i - 1);
    assert Boundary(s, After(s, r)) && After(s, r) > r;
    r
  }

  /** The code point of the scalar that starts at `i`. */
  function CodePoint(s: Bytes, i: nat): nat
    requires Text(s) && i < |s| && Boundary(s, i)
  {
    assert ScalarAt(s, i);
    var lead := s[i] as nat;
    match LeadWidth(s[i])
    case 1 => lead
    case 2 => (lead - 0xC0) * 0x40 + Low(s[i + 1])
    case 3 => (lead - 0xE0) * 0x1000 + Low(s[i + 1]) * 0x40 + Low(s[i + 2])
    case _ => (lead - 0xF0) * 0x40000 + Low(s[i + 1]) * 0x1000 + Low(s[i + 2]) * 0x40 + Low(s[i + 3])
  }

  /** The payload of a continuation byte. */
  function Low(b: Byte): nat
    requires Continuation(b)
  {
    b as nat - 0x80
  }

  /** An ASCII byte is a scalar of its own. */
  lemma PlainByteEnds(s: Bytes, i: nat)
    requires Text(s) && i < |s| && s[i] < 0x80
    ensures Boundary(s, i) && Boundary(s, i + 1) && After(s, i) == i + 1
  {
    assert ScalarAt(s, i);
  }

  /** The first boundary at or behind `i`. */
  function Ceiling(s: Bytes, i: nat): (r: nat)
    requires i <= |s|
    ensures i <= r <= |s| && Boundary(s, r)
    ensures forall k | i <= k < r :: !Boundary(s, k)
    decreases |s| - i
  {
    if Boundary(s, i) then i else Ceiling(s, i + 1)
  }

  /** Rounding down to a boundary loses at most three bytes. */
  lemma FloorIsNear(s: Bytes, i: nat)
    requires Text(s) && i <= |s|
    ensures Floor(s, i) + 3 >= i
  {
    var r := Floor(s, i);
    if r < i {
      var next := After(s, r);
      assert Boundary(s, next);
    }
  }
}
