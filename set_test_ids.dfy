/** The id helpers of the routing set's tests. `UpperID` and `LowerID` copy an
    id and step one byte, from index 2 on, by one, giving a slightly larger or
    smaller id; the tests chain them to build ids in a known order. */
module SetTestIds {
  import opened Wrappers
  import opened RoutingSet

  /** Some byte at index 2 or later can still be raised. The loop in `UpperID`
      reads `id[i]` for `i` up to `len(id)`, so without such a byte it would
      index past the end. */
  predicate CanRaise(id: seq<byte>) {
    exists k :: 2 <= k < |id| && id[k] < 255
  }

  /** Some byte at index 2 or later can still be lowered. */
  predicate CanLower(id: seq<byte>) {
    exists k :: 2 <= k < |id| && id[k] > 0
  }

  /** The first index at or after `i` whose byte is below 255. */
  function RaiseIndex(id: seq<byte>, i: nat): (k: nat)
    requires exists k :: i <= k < |id| && id[k] < 255
    ensures i <= k < |id| && id[k] < 255
    ensures forall j :: i <= j < k ==> id[j] == 255
    decreases |id| - i
  {
    if id[i] < 255 then i else RaiseIndex(id, i + 1)
  }

  /** The first index at or after `i` whose byte is above 0. */
  function LowerIndex(id: seq<byte>, i: nat): (k: nat)
    requires exists k :: i <= k < |id| && id[k] > 0
    ensures i <= k < |id| && id[k] > 0
    ensures forall j :: i <= j < k ==> id[j] == 0
    decreases |id| - i
  {
    if id[i] > 0 then i else LowerIndex(id, i + 1)
  }

  /** What `UpperID` returns, as a value. */
  function Upper(id: seq<byte>): (r: seq<byte>)
    requires CanRaise(id)
    ensures |r| == |id| && r[..2] == id[..2] && r != id
  {
    var k := RaiseIndex(id, 2);
    id[k := id[k] + 1]
  }

  /** What `LowerID` returns, as a value. */
  function Lower(id: seq<byte>): (r: seq<byte>)
    requires CanLower(id)
    ensures |r| == |id| && r[..2] == id[..2] && r != id
  {
    var k := LowerIndex(id, 2);
    id[k := id[k] - 1]
  }

  /** `UpperID`: a fresh copy of `id` with the first byte at index 2 or later
      that is below 255 raised by one. */
  method UpperID(id: array<byte>) returns (n: array<byte>)
    requires CanRaise(id[..])
    ensures fresh(n)
    ensures n[..] == Upper(id[..])
  {
    n := new byte[id.Length];
    for j := 0 to id.Length
      invariant n[..j] == id[..j]
    {
      n[j] := id[j];
    }
    ghost var k := RaiseIndex(id[..], 2);
    var i := 2;
    while i <= id.Length
      invariant 2 <= i <= k
      invariant forall j :: 2 <= j < i ==> id[j] == 255
    {
      if id[i] < 255 {
        break;
      }
      i := i + 1;
    }
    n[i] := n[i] + 1;
  }

  /** `LowerID`: a fresh copy of `id` with the first byte at index 2 or later
      that is above 0 lowered by one. */
  method LowerID(id: array<byte>) returns (n: array<byte>)
    requires CanLower(id[..])
    ensures fresh(n)
    ensures n[..] == Lower(id[..])
  {
    n := new byte[id.Length];
    for j := 0 to id.Length
      invariant n[..j] == id[..j]
    {
      n[j] := id[j];
    }
    ghost var k := LowerIndex(id[..], 2);
    var i := 2;
    while i <= id.Length
      invariant 2 <= i <= k
      invariant forall j :: 2 <= j < i ==> id[j] == 0
    {
      if id[i] > 0 {
        break;
      }
      i := i + 1;
    }
    n[i] := n[i] - 1;
  }

  function Pow256(n: nat): (p: nat)
    ensures p >= 1
  {
    if n == 0 then 1 else 256 * Pow256(n - 1)
  }

  /** Stepping the byte at `k` by one moves the big-endian value by the weight
      of position `k`. */
  lemma {:induction false} ValueAfterStep(s: seq<byte>, k: nat, up: bool)
    requires k < |s|
    requires up ==> s[k] < 255
    requires !up ==> s[k] > 0
    ensures up ==> Value(s[k := s[k] + 1]) == Value(s) + Pow256(|s| - 1 - k)
    ensures !up ==> Value(s[k := s[k] - 1]) + Pow256(|s| - 1 - k) == Value(s)
  {
    var n := |s|;
    var t := if up then s[k := s[k] + 1] else s[k := s[k] - 1];
    if k == n - 1 {
      assert t[..n - 1] == s[..n - 1];
    } else {
      var h := s[..n - 1];
      assert t[..n - 1] == if up then h[k := h[k] + 1] else h[k := h[k] - 1];
      ValueAfterStep(h, k, up);
      assert Pow256(n - 1 - k) == 256 * Pow256(n - 2 - k);
    }
  }

  /** `UpperID` changes only the byte at the first raisable index, and the
      result is strictly larger. */
  lemma UpperIsLarger(id: seq<byte>)
    requires CanRaise(id)
    ensures |Upper(id)| == |id|
    ensures Value(Upper(id)) == Value(id) + Pow256(|id| - 1 - RaiseIndex(id, 2))
    ensures Value(Upper(id)) > Value(id)
  {
    ValueAfterStep(id, RaiseIndex(id, 2), true);
  }

  /** `LowerID` changes only the byte at the first lowerable index, and the
      result is strictly smaller. */
  lemma LowerIsSmaller(id: seq<byte>)
    requires CanLower(id)
    ensures |Lower(id)| == |id|
    ensures Value(Lower(id)) + Pow256(|id| - 1 - LowerIndex(id, 2)) == Value(id)
    ensures Value(Lower(id)) < Value(id)
  {
    ValueAfterStep(id, LowerIndex(id, 2), false);
  }

  /** The ids the tests use: uppercase base-36 text. */
  predicate IsBase36(id: seq<byte>) {
    forall i :: 0 <= i < |id| ==> 48 <= id[i] <= 57 || 65 <= id[i] <= 90
  }

  /** No base-36 byte is 0 or 255, so for an id of at least three bytes both
      helpers step index 2. */
  lemma Base36StepsIndexTwo(id: seq<byte>)
    requires IsBase36(id) && |id| >= 3
    ensures CanRaise(id) && RaiseIndex(id, 2) == 2
    ensures CanLower(id) && LowerIndex(id, 2) == 2
  {
    assert 48 <= id[2] <= 90;
  }

  /** `TestSet_Closest`: the search key lies exactly halfway between `first`
      and `second`, and `Closest` returns `first`. */
  lemma ClosestTest(first: seq<byte>)
    requires IsBase36(first) && |first| >= 3
    ensures CanRaise(first) && CanRaise(Upper(first))
    ensures var search := Upper(first);
            var second := Upper(search);
            NewSet(10).Insert(first).Insert(second).Closest(search) == Some(first)
  {
    Base36StepsIndexTwo(first);
    var search := Upper(first);
    assert search[2] == first[2] + 1 <= 91;
    assert CanRaise(search) && RaiseIndex(search, 2) == 2;
    var second := Upper(search);
    UpperIsLarger(first);
    UpperIsLarger(search);
    ClosestTieGoesToSmaller(10, first, second, search);
  }

  lemma IndexesOfThree(s: Set, a: Peer, b: Peer, c: Peer)
    requires s.items == [a, b, c]
    requires Value(a) > Value(b) > Value(c)
    ensures s.IndexOf(a) == 0 && s.IndexOf(b) == 1 && s.IndexOf(c) == 2
  {
    assert a != b && b != c && a != c;
    assert [a, b, c][1..] == [b, c] && [b, c][1..] == [c];
  }

  /** `TestSet_Insert_IsProperlySorted`: three ids built with `UpperID` land
      at indexes 2, 1 and 0. */
  lemma AscendingSortTest(first: seq<byte>)
    requires IsBase36(first) && |first| >= 3
    ensures CanRaise(first) && CanRaise(Upper(first))
    ensures var second := Upper(first);
            var last := Upper(second);
            var s := NewSet(10).Insert(first).Insert(second).Insert(last);
            s.IndexOf(first) == 2 && s.IndexOf(second) == 1 && s.IndexOf(last) == 0
  {
    Base36StepsIndexTwo(first);
    var second := Upper(first);
    assert second[2] == first[2] + 1 <= 91;
    assert CanRaise(second);
    var last := Upper(second);
    UpperIsLarger(first);
    UpperIsLarger(second);
    AscendingInsertsReversed(10, first, second, last);
    IndexesOfThree(NewSet(10).Insert(first).Insert(second).Insert(last), last, second, first);
  }

  /** `TestSet_Insert_IsProperlySorted_Reverse`: three ids built with
      `LowerID` land at indexes 0, 1 and 2. */
  lemma DescendingSortTest(first: seq<byte>)
    requires IsBase36(first) && |first| >= 3
    ensures CanLower(first) && CanLower(Lower(first))
    ensures var second := Lower(first);
            var last := Lower(second);
            var s := NewSet(10).Insert(first).Insert(second).Insert(last);
            s.IndexOf(first) == 0 && s.IndexOf(second) == 1 && s.IndexOf(last) == 2
  {
    Base36StepsIndexTwo(first);
    var second := Lower(first);
    assert second[2] == first[2] - 1 >= 47;
    assert CanLower(second);
    var last := Lower(second);
    LowerIsSmaller(first);
    LowerIsSmaller(second);
    DescendingInsertsKept(10, first, second, last);
    IndexesOfThree(NewSet(10).Insert(first).Insert(second).Insert(last), first, second, last);
  }
}
