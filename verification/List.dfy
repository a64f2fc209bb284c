/** The growable array that holds queries, servers, records and addresses. */
module RuliList {

  /** What inserting, shifting out and dropping do to the sequence of items. */
  function Inserted<T>(s: seq<T>, idx: nat, item: T): (r: seq<T>)
    requires idx <= |s|
    ensures |r| == |s| + 1
  {
    s[..idx] + [item] + s[idx..]
  }

  function Removed<T>(s: seq<T>, idx: nat): (r: seq<T>)
    requires idx < |s|
    ensures |r| == |s| - 1
  {
    s[..idx] + s[idx + 1..]
  }

  /** The last item takes the place of the dropped one. */
  function Dropped<T>(s: seq<T>, idx: nat): seq<T>
    requires idx < |s|
  {
    s[idx := s[|s| - 1]][..|s| - 1]
  }

  /** Dropping loses exactly the dropped item; it keeps the order only at the end. */
  lemma DroppedItems<T>(s: seq<T>, idx: nat)
    requires idx < |s|
    ensures multiset(Dropped(s, idx)) == multiset(s) - multiset{s[idx]} == multiset(Removed(s, idx))
    ensures Dropped(s, idx)[..idx] == s[..idx]
    ensures idx == |s| - 1 ==> Dropped(s, idx) == Removed(s, idx)
  {
    RemovedItem(s, idx);
    if idx < |s| - 1 {
      DroppedEarly(s, idx);
    } else {
      assert Dropped(s, idx) == s[..idx] == Removed(s, idx);
    }
  }

  lemma DroppedEarly<T>(s: seq<T>, idx: nat)
    requires idx < |s| - 1
    ensures multiset(Dropped(s, idx)) == multiset(s) - multiset{s[idx]}
    ensures Dropped(s, idx)[..idx] == s[..idx]
  {
    var a, last := s[..|s| - 1], s[|s| - 1];
    assert Dropped(s, idx) == a[idx := last];
    ReplacedItem(a, idx, last);
    assert multiset(s) == multiset(a) + multiset{last} by { assert s == a + [last]; }
  }

  lemma RemovedItem<T>(s: seq<T>, idx: nat)
    requires idx < |s|
    ensures multiset(s) == multiset(Removed(s, idx)) + multiset{s[idx]}
  {
    assert s == s[..idx] + ([s[idx]] + s[idx + 1..]);
  }

  lemma ReplacedItem<T>(s: seq<T>, idx: nat, item: T)
    requires idx < |s|
    ensures multiset(s[idx := item]) == multiset(s) - multiset{s[idx]} + multiset{item}
  {
  }

  class List<T(0)> {
    var head: array<T>
    var size: nat

    ghost predicate Valid() reads this {
      size <= head.Length && head.Length > 0
    }

    ghost function Contents(): seq<T>
      requires Valid()
      reads this, head
    {
      head[..size]
    }

    constructor (cap: nat)
      requires cap > 0
      ensures Valid() && fresh(head) && head.Length == cap && Contents() == []
    {
      head := new T[cap];
      size := 0;
    }

    /** Room for one more item: the capacity doubles when the array is full. */
    method Reserve()
      requires Valid()
      modifies this`head
      ensures Valid() && size < head.Length && Contents() == old(Contents())
      ensures if old(size < head.Length) then head == old(head)
              else fresh(head) && head.Length == 2 * old(head.Length)
    {
      if size >= head.Length {
        var bigger := new T[2 * head.Length];
        for i := 0 to size
          invariant head == old(head) && bigger[..i] == head[..i]
        {
          bigger[i] := head[i];
        }
        head := bigger;
      }
    }

    method Push(item: T)
      requires Valid()
      modifies this, head
      ensures Valid() && Contents() == old(Contents()) + [item]
      ensures head == old(head) || fresh(head)
      ensures head.Length == if old(size < head.Length) then old(head.Length) else 2 * old(head.Length)
    {
      Reserve();
      head[size] := item;
      size := size + 1;
    }

    /** Items from `idx` on move one place up, the last one first. */
    method ShiftUp(idx: nat)
      requires Valid() && idx < size < head.Length
      modifies head
      ensures forall k | 0 <= k < idx :: head[k] == old(head[k])
      ensures forall k | idx < k <= size :: head[k] == old(head[k - 1])
    {
      var to := size;
      while to > idx
        invariant idx <= to <= size
        invariant forall k | 0 <= k < to :: head[k] == old(head[k])
        invariant forall k | to < k <= size :: head[k] == old(head[k - 1])
      {
        head[to] := head[to - 1];
        to := to - 1;
      }
    }

    method InsertAt(idx: nat, item: T)
      requires Valid() && idx < size
      modifies this, head
      ensures Valid() && Contents() == Inserted(old(Contents()), idx, item)
      ensures head == old(head) || fresh(head)
    {
      Reserve();
      ghost var was := Contents();
      ShiftUp(idx);
      head[idx] := item;
      size := size + 1;
      assert forall k | 0 <= k < size :: head[k] == Inserted(was, idx, item)[k];
    }

    /** Items after `idx` move one place down. */
    method ShiftAt(idx: nat) returns (item: T)
      requires Valid() && idx < size
      modifies this`size, head
      ensures Valid() && item == old(Contents())[idx] && Contents() == Removed(old(Contents()), idx)
    {
      ghost var was := head[..size];
      item := head[idx];
      var to := idx;
      while to + 1 < size
        invariant idx <= to < size <= head.Length && size == old(size)
        invariant forall k | 0 <= k < idx :: head[k] == was[k]
        invariant forall k | idx <= k < to :: head[k] == was[k + 1]
        invariant forall k | to < k < size :: head[k] == was[k]
      {
        head[to] := head[to + 1];
        to := to + 1;
      }
      size := size - 1;
    }

    method Drop(idx: nat)
      requires Valid() && idx < size
      modifies this`size, head
      ensures Valid() && Contents() == Dropped(old(Contents()), idx)
    {
      size := size - 1;
      if idx != size {
        head[idx] := head[size];
      }
    }

    method Pop() returns (item: T)
      requires Valid() && size > 0
      modifies this`size
      ensures Valid() && old(Contents()) == Contents() + [item]
    {
      size := size - 1;
      item := head[size];
    }

    method Top() returns (item: T)
      requires Valid() && size > 0
      ensures item == Contents()[|Contents()| - 1]
    {
      item := head[size - 1];
    }

    method Get(idx: nat) returns (item: T)
      requires Valid() && idx < size
      ensures item == Contents()[idx]
    {
      item := head[idx];
    }

    method Set(idx: nat, item: T)
      requires Valid() && idx < size
      modifies head
      ensures Valid() && Contents() == old(Contents())[idx := item]
    {
      head[idx] := item;
    }

    method Prune(n: nat)
      requires Valid() && n <= size
      modifies this`size
      ensures Valid() && Contents() == old(Contents())[..n]
    {
      size := n;
    }
  }
}
