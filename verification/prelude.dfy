/** Optional values, machine sizes and a few list functions that every part of the model uses. */
module Prelude {

  datatype Option<+T> = None | Some(value: T)

  const MAX_USIZE: nat := 0xFFFF_FFFF_FFFF_FFFF

  type Usize = x: int | 0 <= x <= MAX_USIZE

  function Min(a: nat, b: nat): nat { if a < b then a else b }

  function Max(a: nat, b: nat): nat { if a < b then b else a }

  function SaturatingAdd(a: nat, b: nat): Usize {
    if a + b > MAX_USIZE then MAX_USIZE else a + b
  }

  function SaturatingSub(a: nat, b: nat): nat {
    if a > b then a - b else 0
  }

  /** The numbers from `a` up to and without `b`. */
  function Span(a: nat, b: nat): (r: seq<nat>)
    requires a <= b
    ensures |r| == b - a && forall i | 0 <= i < |r| :: r[i] == a + i
  {
    seq(b - a, i requires i >= 0 => a + i)
  }

  function Flatten<T>(lists: seq<seq<T>>): seq<T> {
    if lists == [] then [] else lists[0] + Flatten(lists[1..])
  }

  lemma {:induction false} FlattenAppend<T>(lists: seq<seq<T>>, last: seq<T>)
    ensures Flatten(lists + [last]) == Flatten(lists) + last
  {
    if lists == [] {
      assert Flatten([last]) == last + Flatten([]);
    } else {
      FlattenAppend(lists[1..], last);
      assert (lists + [last])[1..] == lists[1..] + [last];
    }
  }

  lemma SliceOfSlice<T>(s: seq<T>, a: nat, b: nat, c: nat, d: nat)
    requires a <= b <= |s| && c <= d <= b - a
    ensures s[a..b][c..d] == s[a + c..a + d]
  {
    var t := s[a..b];
    assert |t[c..d]| == |s[a + c..a + d]|;
    forall i | 0 <= i < d - c ensures t[c..d][i] == s[a + c..a + d][i] {
      assert t[c..d][i] == t[c + i] == s[a + (c + i)];
    }
  }

  lemma SubsetSize<T>(a: set<T>, b: set<T>)
    requires a <= b
    ensures |a| <= |b|
  {
    assert b == a + (b - a);
    assert |b| == |a| + |b - a|;
  }

  lemma Apart<T>(a: set<T>, b: set<T>)
    requires a * b == {}
    ensures forall x | x in a :: x !in b
  {
    assert forall x | x in a && x in b :: x in a * b;
  }
}
