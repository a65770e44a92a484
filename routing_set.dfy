/** The routing overlay's neighbour set: at most `capacity` peer ids, kept in
    strictly descending order of their value as big-endian unsigned integers.
    The set is a value: `Insert` and `Remove` give the new set and the caller
    rebinds (`s = s.Insert(id)`). */
module RoutingSet {
  import opened Wrappers

  /** A peer id: the bytes of its base-36 text form. */
  type Peer = seq<byte>

  /** The id read as a big-endian unsigned integer. */
  function Value(p: Peer): nat {
    if p == [] then 0 else Value(p[..|p| - 1]) * 256 + p[|p| - 1]
  }

  predicate Descending(items: seq<Peer>) {
    forall i, j :: 0 <= i < j < |items| ==> Value(items[i]) > Value(items[j])
  }

  /** Some member already has the value `v`. */
  predicate HasValue(items: seq<Peer>, v: nat) {
    exists m :: m in items && Value(m) == v
  }

  function Dist(p: Peer, key: Peer): nat {
    if Value(p) >= Value(key) then Value(p) - Value(key) else Value(key) - Value(p)
  }

  /** `a` is at least as good an answer to `Closest(key)` as `b`: strictly
      nearer, or as near and not larger (ties go to the predecessor). */
  predicate AtLeastAsClose(a: Peer, b: Peer, key: Peer) {
    Dist(a, key) < Dist(b, key) || (Dist(a, key) == Dist(b, key) && Value(a) <= Value(b))
  }

  /** Insert `id` before the first member whose value is not larger; an id
      whose value is already present leaves the sequence as it is. */
  function InsertSorted(items: seq<Peer>, id: Peer): (r: seq<Peer>)
    requires Descending(items)
    ensures Descending(r)
    ensures HasValue(items, Value(id)) ==> r == items
    ensures forall x :: x in r <==> x in items || (x == id && !HasValue(items, Value(id)))
  {
    if items == [] then [id]
    else if Value(items[0]) < Value(id) then
      PrependLarger(id, items);
      [id] + items
    else if Value(items[0]) == Value(id) then items
    else
      var rest := InsertSorted(items[1..], id);
      HasValueCons(items, Value(id));
      PrependLarger(items[0], rest);
      assert items == [items[0]] + items[1..];
      [items[0]] + rest
  }

  lemma HasValueCons(items: seq<Peer>, v: nat)
    requires items != []
    ensures HasValue(items, v) <==> Value(items[0]) == v || HasValue(items[1..], v)
  {
    if HasValue(items, v) {
      var m :| m in items && Value(m) == v;
      if m != items[0] {
        var k :| 0 <= k < |items| && items[k] == m;
        assert items[1..][k - 1] == m;
      }
    }
    if HasValue(items[1..], v) {
      var m :| m in items[1..] && Value(m) == v;
      assert m in items;
    }
  }

  /** A value larger than every member of a descending sequence may go in
      front of it. */
  lemma PrependLarger(x: Peer, items: seq<Peer>)
    requires Descending(items)
    requires forall m :: m in items ==> Value(m) < Value(x)
    ensures Descending([x] + items)
  {
    var r := [x] + items;
    forall i, j | 0 <= i < j < |r| ensures Value(r[i]) > Value(r[j]) {
      var b := items[j - 1];
      assert r[j] == b;
      if i == 0 {
        assert b in items;
        assert r[i] == x;
      } else {
        assert r[i] == items[i - 1];
      }
    }
  }

  /** A value smaller than every member goes at the end. */
  lemma {:induction false} InsertSmallest(items: seq<Peer>, id: Peer)
    requires Descending(items)
    requires forall m :: m in items ==> Value(m) > Value(id)
    ensures InsertSorted(items, id) == items + [id]
  {
    if items != [] {
      var tail := items[1..];
      assert items == [items[0]] + tail;
      assert Value(items[0]) > Value(id) by { assert items[0] in items; }
      assert forall m :: m in tail ==> m in items;
      assert Descending(tail) by {
        forall i, j | 0 <= i < j < |tail| ensures Value(tail[i]) > Value(tail[j]) {
          assert tail[i] == items[i + 1] && tail[j] == items[j + 1];
        }
      }
      InsertSmallest(tail, id);
      assert InsertSorted(items, id) == [items[0]] + InsertSorted(tail, id);
    }
  }

  function Take(s: seq<Peer>, n: nat): (r: seq<Peer>)
    ensures |r| <= n && r <= s
    ensures |s| <= n ==> r == s
  {
    if |s| <= n then s else s[..n]
  }

  /** Sequences of distinct values hold no id twice. */
  lemma DescendingDistinct(items: seq<Peer>, i: int, j: int)
    requires Descending(items)
    requires 0 <= i < |items| && 0 <= j < |items| && i != j
    ensures items[i] != items[j]
  {
  }

  function IndexIn(items: seq<Peer>, id: Peer): (i: int)
    ensures i == -1 <==> id !in items
    ensures i != -1 ==> 0 <= i < |items| && items[i] == id
    ensures i != -1 ==> forall j :: 0 <= j < i ==> items[j] != id
  {
    if items == [] then -1
    else if items[0] == id then 0
    else
      var k := IndexIn(items[1..], id);
      assert items == [items[0]] + items[1..];
      if k == -1 then -1 else k + 1
  }

  function ClosestIn(items: seq<Peer>, key: Peer): (c: Peer)
    requires |items| > 0
    ensures c in items
    ensures forall m :: m in items ==> AtLeastAsClose(c, m, key)
  {
    if |items| == 1 then items[0]
    else
      var c := ClosestIn(items[1..], key);
      assert items == [items[0]] + items[1..];
      if Dist(items[0], key) < Dist(c, key)
         || (Dist(items[0], key) == Dist(c, key) && Value(items[0]) < Value(c))
      then items[0] else c
  }

  datatype Set = Set(capacity: nat, items: seq<Peer>) {

    /** The set's invariant: strictly descending and within capacity. */
    predicate Valid() {
      Descending(items) && |items| <= capacity
    }

    function Length(): (n: nat)
      ensures Valid() ==> n <= capacity
    {
      |items|
    }

    /** The member at `index`: exactly `index` members are larger. */
    function Get(index: int): (p: Peer)
      requires 0 <= index < |items|
      ensures p in items
      ensures Valid() ==> forall j :: 0 <= j < |items| ==> (j < index <==> Value(items[j]) > Value(p))
    {
      items[index]
    }

    /** The position of `id`, or -1 when it is not a member. */
    function IndexOf(id: Peer): (i: int)
      ensures i == -1 <==> id !in items
      ensures i != -1 ==> 0 <= i < |items| && items[i] == id
    {
      IndexIn(items, id)
    }

    /** Insert `id` in order, then drop the smallest members beyond capacity.
        Nothing but old members and `id` ends up in the set;
        `InsertKeepsLargest` says which of them stay. */
    function Insert(id: Peer): (r: Set)
      requires Valid()
      ensures r.Valid() && r.capacity == capacity
      ensures forall x :: x in r.items ==> x in items || x == id
    {
      var kept := Take(InsertSorted(items, id), capacity);
      TakeKeepsLargest(InsertSorted(items, id), kept, capacity);
      Set(capacity, kept)
    }

    /** Remove `id`; `ok` reports whether it was a member. */
    function Remove(id: Peer): (res: (Set, bool))
      requires Valid()
      ensures res.1 <==> id in items
      ensures res.0.Valid() && res.0.capacity == capacity
      ensures forall x :: x in res.0.items <==> x in items && x != id
      ensures |res.0.items| == if res.1 then |items| - 1 else |items|
    {
      var i := IndexOf(id);
      if i < 0 then (this, false)
      else
        RemoveAt(items, i);
        (Set(capacity, items[..i] + items[i + 1..]), true)
    }

    /** The member nearest to `key`, ties broken toward the smaller member;
        `None` for an empty set. */
    function Closest(key: Peer): (r: Option<Peer>)
      ensures r.None? <==> items == []
      ensures r.Some? ==> r.value in items
      ensures r.Some? ==> forall m :: m in items ==> AtLeastAsClose(r.value, m, key)
    {
      if items == [] then None else Some(ClosestIn(items, key))
    }
  }

  function NewSet(capacity: nat): (s: Set)
    ensures s.Valid() && s.Length() == 0 && s.capacity == capacity
  {
    Set(capacity, [])
  }

  /** Taking out the member at `i` keeps the order and every other member. */
  lemma RemoveAt(items: seq<Peer>, i: int)
    requires Descending(items) && 0 <= i < |items|
    ensures Descending(items[..i] + items[i + 1..])
    ensures forall x :: x in items[..i] + items[i + 1..] <==> x in items && x != items[i]
  {
    var r := items[..i] + items[i + 1..];
    assert forall k :: 0 <= k < i ==> r[k] == items[k];
    assert forall k :: i <= k < |r| ==> r[k] == items[k + 1];
    RemoveAtKeepsOthers(items, i, r);
    forall a, b | 0 <= a < b < |r| ensures Value(r[a]) > Value(r[b]) {
      var a' := if a < i then a else a + 1;
      var b' := if b < i then b else b + 1;
      assert r[a] == items[a'] && r[b] == items[b'];
    }
  }

  lemma RemoveAtKeepsOthers(items: seq<Peer>, i: int, r: seq<Peer>)
    requires Descending(items) && 0 <= i < |items| && |r| == |items| - 1
    requires forall k :: 0 <= k < i ==> r[k] == items[k]
    requires forall k :: i <= k < |r| ==> r[k] == items[k + 1]
    ensures forall x :: x in r <==> x in items && x != items[i]
  {
    forall x | x in items && x != items[i] ensures x in r {
      var k :| 0 <= k < |items| && items[k] == x;
      if k < i { assert r[k] == x; } else { assert r[k - 1] == x; }
    }
    forall k | 0 <= k < |r| ensures r[k] != items[i] {
      if k < i { DescendingDistinct(items, k, i); }
      else { DescendingDistinct(items, k + 1, i); }
    }
  }

  /** Cutting a descending sequence to `n` drops only values smaller than
      every value kept. */
  lemma TakeKeepsLargest(all: seq<Peer>, kept: seq<Peer>, n: nat)
    requires Descending(all) && kept == Take(all, n)
    ensures Descending(kept)
    ensures forall x :: x in all && x !in kept ==>
              |kept| == n && forall y :: y in kept ==> Value(y) > Value(x)
  {
    forall x | x in all && x !in kept
      ensures |kept| == n && forall y :: y in kept ==> Value(y) > Value(x)
    {
      var i :| 0 <= i < |all| && all[i] == x;
      assert |all| > n && i >= n;
      forall y | y in kept ensures Value(y) > Value(x) {
        var j :| 0 <= j < |kept| && kept[j] == y;
        assert all[j] == y;
      }
    }
  }

  /** `Insert` keeps the largest `capacity` values among the old members and
      `id`: a candidate is missing only when the new set is full of larger
      ones, or it is `id` and its value was already present. */
  lemma InsertKeepsLargest(s: Set, id: Peer)
    requires s.Valid()
    ensures var r := s.Insert(id);
            forall x :: (x in s.items || x == id) && x !in r.items ==>
              (x == id && HasValue(s.items, Value(id)))
              || (|r.items| == s.capacity && forall y :: y in r.items ==> Value(y) > Value(x))
  {
    TakeKeepsLargest(InsertSorted(s.items, id), s.Insert(id).items, s.capacity);
  }

  // ---------------------------------------------------------------------
  // Properties the set's tests rely on

  /** Any sequence of inserts into a new set leaves it descending and within
      capacity. */
  function InsertAll(s: Set, ids: seq<Peer>): (r: Set)
    requires s.Valid()
    ensures r.Valid() && r.capacity == s.capacity
    decreases |ids|
  {
    if ids == [] then s else InsertAll(s.Insert(ids[0]), ids[1..])
  }

  lemma InsertIntoEmpty(capacity: nat, id: Peer)
    requires capacity > 0
    ensures NewSet(capacity).Insert(id).IndexOf(id) == 0
  {
  }

  lemma RemoveMember(s: Set, id: Peer)
    requires s.Valid() && id in s.items
    ensures s.Remove(id).1
    ensures s.Remove(id).0.IndexOf(id) == -1
    ensures s.Remove(id).0.Length() == s.Length() - 1
  {
  }

  lemma InsertThenRemove(capacity: nat, id: Peer)
    requires capacity > 0
    ensures NewSet(capacity).Insert(id).Remove(id).1
    ensures NewSet(capacity).Insert(id).Remove(id).0.IndexOf(id) == -1
  {
    InsertIntoEmpty(capacity, id);
    RemoveMember(NewSet(capacity).Insert(id), id);
  }

  /** Inserting a value larger than the member at the front. */
  lemma InsertLargest(s: Set, id: Peer)
    requires s.Valid() && s.capacity > 0
    requires forall m :: m in s.items ==> Value(m) < Value(id)
    ensures s.Insert(id).items == Take([id] + s.items, s.capacity)
  {
    if s.items != [] {
      assert s.items[0] in s.items;
    }
  }

  /** A full set takes a new largest value at index 0 and evicts its
      previous minimum. */
  lemma InsertLargestIntoFull(s: Set, id: Peer)
    requires s.Valid() && s.capacity > 0 && s.Length() == s.capacity
    requires forall m :: m in s.items ==> Value(m) < Value(id)
    ensures s.Insert(id).Length() == s.capacity
    ensures s.Insert(id).Get(0) == id
    ensures s.Insert(id).items == [id] + s.items[..s.capacity - 1]
    ensures s.items[s.capacity - 1] !in s.Insert(id).items
  {
    var n := s.capacity;
    InsertLargest(s, id);
    assert ([id] + s.items)[..n] == [id] + s.items[..n - 1];
    var last := s.items[n - 1];
    assert Value(last) < Value(id) by { assert last in s.items; }
    forall k | 0 <= k < n - 1 ensures s.items[k] != last {
      DescendingDistinct(s.items, k, n - 1);
    }
    assert last !in s.items[..n - 1];
  }

  /** Ids inserted in ascending order come out reversed. */
  lemma AscendingInsertsReversed(capacity: nat, a: Peer, b: Peer, c: Peer)
    requires capacity >= 3
    requires Value(a) < Value(b) < Value(c)
    ensures NewSet(capacity).Insert(a).Insert(b).Insert(c).items == [c, b, a]
  {
    assert InsertSorted([], a) == [a];
    var s1 := NewSet(capacity).Insert(a);
    assert s1.items == [a];
    assert InsertSorted([a], b) == [b, a];
    var s2 := s1.Insert(b);
    assert s2.items == [b, a];
    assert InsertSorted([b, a], c) == [c, b, a];
  }

  /** Ids inserted in descending order keep their order. */
  lemma DescendingInsertsKept(capacity: nat, a: Peer, b: Peer, c: Peer)
    requires capacity >= 3
    requires Value(a) > Value(b) > Value(c)
    ensures NewSet(capacity).Insert(a).Insert(b).Insert(c).items == [a, b, c]
  {
    assert InsertSorted([], a) == [a];
    var s1 := NewSet(capacity).Insert(a);
    assert s1.items == [a];
    InsertSmallest([a], b);
    assert Take([a] + [b], capacity) == [a, b];
    var s2 := s1.Insert(b);
    assert s2.items == [a, b];
    InsertSmallest([a, b], c);
    assert Take([a, b] + [c], capacity) == [a, b, c];
  }

  /** The closest-match test: of two members equally far from the key on
      either side, `Closest` gives the smaller one. */
  lemma ClosestTieGoesToSmaller(capacity: nat, a: Peer, b: Peer, key: Peer)
    requires capacity >= 2
    requires Value(a) < Value(key) < Value(b)
    requires Value(key) - Value(a) == Value(b) - Value(key)
    ensures NewSet(capacity).Insert(a).Insert(b).Closest(key) == Some(a)
  {
    assert InsertSorted([], a) == [a];
    var s1 := NewSet(capacity).Insert(a);
    assert s1.items == [a];
    assert InsertSorted([a], b) == [b, a];
    var s := s1.Insert(b);
    assert s.items == [b, a];
    assert [b, a][1..] == [a];
    assert Dist(a, key) == Dist(b, key) && Value(a) < Value(b);
    assert ClosestIn([b, a], key) == a;
  }
}
