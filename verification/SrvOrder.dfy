/** The order in which SRV records are tried (RFC 2782, Priority and Weight): an insertion
    sort by priority, then weighted draws that remove one record at a time. */
module SrvOrder {
  import opened Bytes
  import opened RuliList

  datatype Record = Record(priority: nat, weight: nat, port: nat, ttl: nat, target: seq<byte>)

  // ------------------------------------------------------------ priority sort

  /** The first record, from `i` on, of a lower or equal priority number. */
  function LowerOrEqual(s: seq<Record>, p: nat, i: nat): (k: nat)
    requires i <= |s|
    ensures i <= k <= |s| && (k < |s| ==> s[k].priority <= p)
    ensures forall j | i <= j < k :: s[j].priority > p
    decreases |s| - i
  {
    if i == |s| || s[i].priority <= p then i else LowerOrEqual(s, p, i + 1)
  }

  function OtherPriority(s: seq<Record>, p: nat, i: nat): (k: nat)
    requires i <= |s|
    ensures i <= k <= |s| && (k < |s| ==> s[k].priority != p)
    ensures forall j | i <= j < k :: s[j].priority == p
    decreases |s| - i
  {
    if i == |s| || s[i].priority != p then i else OtherPriority(s, p, i + 1)
  }

  /** Where the scan puts the record: before its priority, or after it when it has no
      weight. The length of the list stands for "not inserted by the scan". */
  function Slot(s: seq<Record>, r: Record): (k: nat)
    ensures k <= |s|
  {
    var i := LowerOrEqual(s, r.priority, 0);
    if i < |s| && r.weight == 0 then OtherPriority(s, r.priority, i) else i
  }

  function Placed(s: seq<Record>, r: Record): (t: seq<Record>)
    ensures |t| == |s| + 1
  {
    Inserted(s, Slot(s, r), r)
  }

  function SortByPriority(rs: seq<Record>): seq<Record> {
    if rs == [] then [] else Placed(SortByPriority(rs[..|rs| - 1]), rs[|rs| - 1])
  }

  /** Higher priority numbers first; inside a priority, records without weight last. */
  ghost predicate Ordered(s: seq<Record>) {
    forall i, j | 0 <= i < j < |s| :: InOrder(s[i], s[j])
  }

  predicate InOrder(a: Record, b: Record) {
    a.priority >= b.priority && (a.priority == b.priority && a.weight == 0 ==> b.weight == 0)
  }

  /** In an ordered list the place found is where the record belongs. */
  lemma SlotFits(s: seq<Record>, r: Record)
    requires Ordered(s)
    ensures var k := Slot(s, r);
            && (forall j | 0 <= j < k :: s[j].priority > r.priority || (s[j].priority == r.priority && r.weight == 0))
            && (forall j | k <= j < |s| :: s[j].priority < r.priority || (s[j].priority == r.priority && r.weight != 0))
  {
    var i, k := LowerOrEqual(s, r.priority, 0), Slot(s, r);
    forall j | k <= j < |s|
      ensures s[j].priority <= s[k].priority <= s[i].priority <= r.priority
    {
    }
  }

  lemma PlacedOrdered(s: seq<Record>, r: Record)
    requires Ordered(s)
    ensures Ordered(Placed(s, r))
    ensures multiset(Placed(s, r)) == multiset(s) + multiset{r}
  {
    hide Slot, Inserted, Ordered;
    SlotFits(s, r);
    var k, t := Slot(s, r), Placed(s, r);
    InsertedItem(s, k, r);
    forall i, j | 0 <= i < j < |t|
      ensures InOrder(t[i], t[j])
    {
      var x, y := if i < k then i else i - 1, if j < k then j else j - 1;
      if i != k && j != k {
        assert InOrder(s[x], s[y]) by { OrderedAt(s, x, y); }
      }
    }
    assert Ordered(t) by { AllInOrder(t); }
  }

  lemma OrderedAt(s: seq<Record>, i: nat, j: nat)
    requires Ordered(s) && i < j < |s|
    ensures InOrder(s[i], s[j])
  {
  }

  lemma AllInOrder(s: seq<Record>)
    requires forall i, j | 0 <= i < j < |s| :: InOrder(s[i], s[j])
    ensures Ordered(s)
  {
  }

  lemma InsertedItem(s: seq<Record>, k: nat, r: Record)
    requires k <= |s|
    ensures multiset(Inserted(s, k, r)) == multiset(s) + multiset{r}
    ensures forall i | 0 <= i <= |s| ::
              Inserted(s, k, r)[i] == if i == k then r else s[if i < k then i else i - 1]
  {
    assert multiset(s) == multiset(s[..k]) + multiset(s[k..]) by { assert s == s[..k] + s[k..]; }
  }

  /** Taking a record out keeps the order. */
  lemma RemovedOrdered(s: seq<Record>, i: nat)
    requires Ordered(s) && i < |s|
    ensures Ordered(Removed(s, i))
    ensures multiset(s) == multiset(Removed(s, i)) + multiset{s[i]}
  {
    RemovedItem(s, i);
    var t := Removed(s, i);
    assert forall j | 0 <= j < |t| :: t[j] == s[if j < i then j else j + 1];
  }

  lemma {:induction false} SortedPermutation(rs: seq<Record>)
    ensures Ordered(SortByPriority(rs)) && multiset(SortByPriority(rs)) == multiset(rs)
  {
    if rs != [] {
      var n := |rs| - 1;
      SortedPermutation(rs[..n]);
      PlacedOrdered(SortByPriority(rs[..n]), rs[n]);
      assert rs == rs[..n] + [rs[n]];
    }
  }

  // ---------------------------------------------- the sort as it is written

  /** The marker that is cleared after an insertion is not the one that is tested: the
      record is pushed at the tail as well. */
  function PlacedAsWritten(s: seq<Record>, r: Record): seq<Record> {
    if Slot(s, r) < |s| then Placed(s, r) + [r] else s + [r]
  }

  function SortAsWritten(rs: seq<Record>): seq<Record> {
    if rs == [] then [] else PlacedAsWritten(SortAsWritten(rs[..|rs| - 1]), rs[|rs| - 1])
  }

  /** The sort with the test on the marker that is cleared, or as the program stands. */
  function Prioritized(rs: seq<Record>, repaired: bool): seq<Record> {
    if repaired then SortByPriority(rs) else SortAsWritten(rs)
  }

  /** The records arrive in such an order that the scan never inserts one. */
  ghost predicate NeverInserted(rs: seq<Record>) {
    forall j | 0 < j < |rs| ::
      rs[j].priority < rs[j - 1].priority || (rs[j].priority == rs[j - 1].priority && rs[j].weight == 0)
  }

  lemma {:induction false} NeverInsertedBelow(rs: seq<Record>, i: nat, j: nat)
    requires NeverInserted(rs) && i <= j < |rs|
    ensures rs[j].priority <= rs[i].priority
    decreases j
  {
    if i < j {
      NeverInsertedBelow(rs, i, j - 1);
    }
  }

  lemma TailSlot(rs: seq<Record>)
    requires rs != [] && NeverInserted(rs[..|rs| - 1])
    ensures Slot(rs[..|rs| - 1], rs[|rs| - 1]) == |rs| - 1 <==> NeverInserted(rs)
  {
    var n := |rs| - 1;
    var s, r := rs[..n], rs[n];
    if n > 0 {
      var i := LowerOrEqual(s, r.priority, 0);
      forall j | 0 <= j < n
        ensures s[n - 1].priority <= s[j].priority
        ensures i <= j ==> s[j].priority <= s[i].priority
      {
        NeverInsertedBelow(s, j, n - 1);
        if i <= j { NeverInsertedBelow(s, i, j); }
      }
      assert NeverInserted(rs) <==>
             r.priority < s[n - 1].priority || (r.priority == s[n - 1].priority && r.weight == 0);
    }
  }

  lemma {:induction false} AsWrittenLength(rs: seq<Record>)
    ensures |SortAsWritten(rs)| >= |rs|
    ensures |SortAsWritten(rs)| == |rs| <==> NeverInserted(rs)
    ensures NeverInserted(rs) ==> SortAsWritten(rs) == rs == SortByPriority(rs)
  {
    hide Slot, NeverInserted, Placed;
    NeverInsertedPrefix(rs);
    if rs != [] {
      var n := |rs| - 1;
      AsWrittenLength(rs[..n]);
      if NeverInserted(rs[..n]) {
        TailSlot(rs);
        TailPlaced(rs);
      }
    }
  }

  lemma TailPlaced(rs: seq<Record>)
    requires rs != []
    ensures var s, r := rs[..|rs| - 1], rs[|rs| - 1];
            && rs == s + [r]
            && (Slot(s, r) == |s| ==> Placed(s, r) == rs)
  {
    hide Slot;
  }

  lemma NeverInsertedPrefix(rs: seq<Record>)
    ensures rs == [] ==> NeverInserted(rs)
    ensures rs != [] && NeverInserted(rs) ==> NeverInserted(rs[..|rs| - 1])
  {
  }

  /** As written the sort returns a permutation of the records exactly when they arrive in
      such an order; then it leaves them as they are, and so does the intended sort. */
  lemma AsWrittenExact(rs: seq<Record>)
    ensures multiset(SortAsWritten(rs)) == multiset(rs) <==> NeverInserted(rs)
    ensures NeverInserted(rs) ==> SortAsWritten(rs) == rs == SortByPriority(rs)
  {
    AsWrittenLength(rs);
    assert |multiset(SortAsWritten(rs))| == |SortAsWritten(rs)| && |multiset(rs)| == |rs|;
  }

  /** Two records in increasing priority already become three. */
  lemma AsWrittenExample(a: Record, b: Record)
    requires a.priority < b.priority
    ensures SortAsWritten([a, b]) == [b, a, b] && SortByPriority([a, b]) == [b, a]
  {
    assert [a, b][..1] == [a] && [a][..0] == [];
    assert Slot([], a) == 0 && Slot([a], b) == 0;
    assert SortAsWritten([a]) == [a] == SortByPriority([a]);
    assert Placed([a], b) == [b, a];
  }

  // ------------------------------------------------------- weighted selection

  /** The records of the last priority of the list start here. */
  function BlockStart(s: seq<Record>): (b: nat)
    requires s != []
    ensures b < |s| && forall k | b <= k < |s| :: s[k].priority == s[|s| - 1].priority
    ensures b > 0 ==> s[b - 1].priority != s[|s| - 1].priority
  {
    var n := |s| - 1;
    if n > 0 && s[n - 1].priority == s[n].priority then BlockStart(s[..n]) else n
  }

  function WeightSum(s: seq<Record>, i: nat): nat
    decreases |s| - i
  {
    if i >= |s| then 0 else s[i].weight + WeightSum(s, i + 1)
  }

  lemma {:induction false} WeightSumMonotone(s: seq<Record>, i: nat, j: nat)
    requires i <= j
    ensures WeightSum(s, j) <= WeightSum(s, i)
    decreases |s| - i
  {
    if i < j && i < |s| {
      WeightSumMonotone(s, i + 1, j);
    }
  }

  /** The sum the draw is taken up to. */
  function BlockSum(s: seq<Record>): nat
    requires s != []
  {
    WeightSum(s, BlockStart(s))
  }

  /** Going down from `i`, the first record whose running sum reaches the draw. */
  function PickFrom(s: seq<Record>, rnd: nat, i: nat): (k: nat)
    requires i < |s| && BlockStart(s) <= i && rnd <= BlockSum(s)
    ensures BlockStart(s) <= k <= i && WeightSum(s, k) >= rnd
    ensures forall j | k < j <= i :: WeightSum(s, j) < rnd
  {
    if WeightSum(s, i) >= rnd then i else PickFrom(s, rnd, i - 1)
  }

  function Pick(s: seq<Record>, rnd: nat): (k: nat)
    requires s != [] && rnd <= BlockSum(s)
    ensures BlockStart(s) <= k < |s|
  {
    PickFrom(s, rnd, |s| - 1)
  }

  /** Record `i` is picked by the draws in one interval. */
  lemma PickInterval(s: seq<Record>, rnd: nat, i: nat)
    requires s != [] && rnd <= BlockSum(s) && BlockStart(s) <= i < |s|
    ensures Pick(s, rnd) == i <==>
            rnd <= WeightSum(s, i) && (i < |s| - 1 ==> WeightSum(s, i + 1) < rnd)
  {
    var k := Pick(s, rnd);
    if k < i { WeightSumMonotone(s, k + 1, i); }
    if i < k { WeightSumMonotone(s, i + 1, k); }
  }

  function Interval(lo: nat, hi: nat): (s: set<nat>)
    requires lo <= hi
    ensures |s| == hi - lo && forall r: nat :: r in s <==> lo <= r < hi
    decreases hi
  {
    if lo == hi then {} else Interval(lo, hi - 1) + {hi - 1}
  }

  /** Of the sum + 1 values of a draw, the first record in running order is picked by its
      weight + 1, and every other record of that priority by exactly its weight. */
  lemma DrawCounts(s: seq<Record>, i: nat)
    requires s != [] && BlockStart(s) <= i < |s|
    ensures |set r: nat | r <= BlockSum(s) && Pick(s, r) == i| == s[i].weight + if i == |s| - 1 then 1 else 0
  {
    WeightSumMonotone(s, BlockStart(s), i);
    var lo := if i == |s| - 1 then 0 else WeightSum(s, i + 1) + 1;
    var hi := WeightSum(s, i) + 1;
    forall r: nat
      ensures r <= BlockSum(s) && Pick(s, r) == i <==> lo <= r < hi
    {
      if r <= BlockSum(s) {
        PickInterval(s, r, i);
      }
    }
    assert (set r: nat | r <= BlockSum(s) && Pick(s, r) == i) == Interval(lo, hi);
  }

  /** A record without weight is picked only by the draw 0, and then only if it has a
      record without weight behind it or is the last: with the sorted list, exactly when the
      priority has one. */
  lemma ZeroWeightDraw(s: seq<Record>, rnd: nat)
    requires s != [] && rnd <= BlockSum(s) && Ordered(s)
    ensures s[Pick(s, rnd)].weight == 0 <==>
            rnd == 0 && exists k :: BlockStart(s) <= k < |s| && s[k].weight == 0
  {
    PickInterval(s, rnd, Pick(s, rnd));
    PickInterval(s, 0, |s| - 1);
  }

  // ---------------------------------------------------------------- all draws

  /** The k-th draw, up to a maximum: any number the generator may return. */
  type Draws = (nat, nat) -> nat

  ghost predicate InRange(draws: Draws) {
    forall k, max :: draws(k, max) <= max
  }

  ghost function Weighted(s: seq<Record>, draws: Draws, k: nat): (r: seq<Record>)
    requires InRange(draws)
    ensures |r| == |s|
    decreases |s|
  {
    if s == [] then []
    else
      var i := Pick(s, draws(k, BlockSum(s)));
      [s[i]] + Weighted(Removed(s, i), draws, k + 1)
  }

  lemma BlockIsLowest(s: seq<Record>, i: nat)
    requires Ordered(s) && i < |s| && BlockStart(s) <= i
    ensures forall r | r in s :: s[i].priority <= r.priority
  {
  }

  ghost predicate ByPriority(r: seq<Record>) {
    forall i, j | 0 <= i < j < |r| :: r[i].priority <= r[j].priority
  }

  /** Whatever is drawn: every record once, and from an ordered list in non-decreasing priority. */
  lemma {:induction false} WeightedPermutation(s: seq<Record>, draws: Draws, k: nat)
    requires InRange(draws)
    ensures multiset(Weighted(s, draws, k)) == multiset(s)
    ensures Ordered(s) ==> ByPriority(Weighted(s, draws, k))
    decreases |s|
  {
    hide Pick, BlockSum, Removed, Ordered, ByPriority;
    if s == [] {
      assert ByPriority([]) by { NoneByPriority(); }
    } else {
      var i := Pick(s, draws(k, BlockSum(s)));
      var rest := Weighted(Removed(s, i), draws, k + 1);
      RemovedItem(s, i);
      WeightedPermutation(Removed(s, i), draws, k + 1);
      if Ordered(s) {
        RemovedOrdered(s, i);
        LowestFirst(s, i, rest);
      }
    }
  }

  lemma NoneByPriority()
    ensures ByPriority([])
  {
  }

  /** A record of the last priority may come before all others. */
  lemma LowestFirst(s: seq<Record>, i: nat, rest: seq<Record>)
    requires Ordered(s) && i < |s| && BlockStart(s) <= i
    requires ByPriority(rest) && multiset(s) == multiset(rest) + multiset{s[i]}
    ensures ByPriority([s[i]] + rest)
  {
    hide Ordered;
    BlockIsLowest(s, i);
    forall j | 0 <= j < |rest|
      ensures s[i].priority <= rest[j].priority
    {
      assert rest[j] in multiset(rest);
      assert rest[j] in multiset(s);
    }
  }

  /** The whole ordering, for every list of records and every sequence of draws. */
  lemma OrderedAnswer(rs: seq<Record>, draws: Draws)
    requires InRange(draws)
    ensures multiset(Weighted(SortByPriority(rs), draws, 0)) == multiset(rs)
    ensures ByPriority(Weighted(SortByPriority(rs), draws, 0))
  {
    SortedPermutation(rs);
    WeightedPermutation(SortByPriority(rs), draws, 0);
  }

  /** As written, the answer holds every record once exactly when the sort does, and is in
      order of priority exactly when the records arrive in the opposite order of it. */
  lemma OrderedAnswerAsWritten(rs: seq<Record>, draws: Draws)
    requires InRange(draws)
    ensures multiset(Weighted(SortAsWritten(rs), draws, 0)) == multiset(rs) <==> NeverInserted(rs)
    ensures ByPriority(Weighted(SortAsWritten(rs), draws, 0)) <==> Descending(rs)
  {
    AsWrittenExact(rs);
    WeightedPermutation(SortAsWritten(rs), draws, 0);
    WeightedOrder(SortAsWritten(rs), draws, 0);
    AsWrittenDescends(rs);
  }

  /** Neither the sort, repaired or not, nor the draws lose or add a record. */
  lemma SameRecords(rs: seq<Record>, draws: Draws, repaired: bool, r: Record)
    requires InRange(draws)
    ensures r in Weighted(Prioritized(rs, repaired), draws, 0) <==> r in rs
  {
    var s := Prioritized(rs, repaired);
    WeightedPermutation(s, draws, 0);
    SortedPermutation(rs);
    AsWrittenDescends(rs);
    assert r in Weighted(s, draws, 0) <==> r in multiset(Weighted(s, draws, 0));
    assert r in s <==> r in multiset(s);
    assert r in rs <==> r in multiset(rs);
  }

  // ------------------------------------------------- the order of priority alone

  ghost predicate Descending(s: seq<Record>) {
    forall i, j | 0 <= i < j < |s| :: s[i].priority >= s[j].priority
  }

  ghost predicate Above(a: seq<Record>, b: seq<Record>) {
    forall x, y | x in a && y in b :: x.priority >= y.priority
  }

  lemma AboveParts(a: seq<Record>, b: seq<Record>, c: seq<Record>)
    ensures Above(a, b + c) <==> Above(a, b) && Above(a, c)
    ensures Above(a + b, c) <==> Above(a, c) && Above(b, c)
  {
    assert forall x :: x in b + c <==> x in b || x in c;
    assert forall x :: x in a + b <==> x in a || x in b;
  }

  lemma DescendingParts(a: seq<Record>, b: seq<Record>)
    ensures Descending(a + b) <==> Descending(a) && Descending(b) && Above(a, b)
  {
    if Descending(a + b) {
      assert forall i | 0 <= i < |a| :: (a + b)[i] == a[i];
      assert forall i | 0 <= i < |b| :: (a + b)[|a| + i] == b[i];
    }
  }

  lemma OneDescends(r: Record)
    ensures Descending([]) && Descending([r]) && Above([r], [r])
  {
  }

  /** A record fits between others exactly when it is not above the earlier ones, nor below
      the later ones. */
  lemma BetweenDescends(a: seq<Record>, r: Record, b: seq<Record>)
    ensures Descending(a + ([r] + b)) <==> Descending(a + b) && Above(a, [r]) && Above([r], b)
  {
    hide Descending, Above;
    OneDescends(r);
    DescendingParts(a, [r] + b);
    DescendingParts([r], b);
    DescendingParts(a, b);
    AboveParts(a, [r], b);
  }

  /** A record of the last priority is taken out of a list in order exactly when the others
      are in order and none is below it. */
  lemma DescendsByRemoval(s: seq<Record>, i: nat)
    requires i < |s| && BlockStart(s) <= i
    ensures Descending(s) <==> Descending(Removed(s, i)) && Above(Removed(s, i), [s[i]])
  {
    var a, r, b := s[..i], s[i], s[i + 1..];
    hide BlockStart, Descending, Above, Removed;
    LastAbove(s, i);
    Around(s, i);
    BetweenDescends(a, r, b);
    AboveParts(a, b, [r]);
  }

  lemma Around(s: seq<Record>, i: nat)
    requires i < |s|
    ensures s == s[..i] + ([s[i]] + s[i + 1..]) && Removed(s, i) == s[..i] + s[i + 1..]
  {
  }

  lemma LastAbove(s: seq<Record>, i: nat)
    requires i < |s| && BlockStart(s) <= i
    ensures Above([s[i]], s[i + 1..]) && Above(s[i + 1..], [s[i]])
  {
    assert forall x | x in s[i + 1..] :: x.priority == s[i].priority;
  }

  lemma FirstByPriority(r: Record, rest: seq<Record>)
    ensures ByPriority([r] + rest) <==> ByPriority(rest) && Above(rest, [r])
  {
    var t := [r] + rest;
    if ByPriority(t) {
      forall i, j | 0 <= i < j < |rest|
        ensures rest[i].priority <= rest[j].priority
      {
        assert t[i + 1].priority <= t[j + 1].priority;
      }
      forall i | 0 <= i < |rest|
        ensures r.priority <= rest[i].priority
      {
        assert t[0].priority <= t[i + 1].priority;
      }
    }
    if ByPriority(rest) && Above(rest, [r]) {
      assert r in [r];
      forall i, j | 0 <= i < j < |t|
        ensures t[i].priority <= t[j].priority
      {
        assert rest[j - 1] in rest;
      }
    }
  }

  /** Whatever is drawn, the draws neither lose nor restore the order of the sorted list. */
  lemma {:induction false} WeightedOrder(s: seq<Record>, draws: Draws, k: nat)
    requires InRange(draws)
    ensures ByPriority(Weighted(s, draws, k)) <==> Descending(s)
    decreases |s|
  {
    hide Pick, BlockSum, Removed, Descending, ByPriority, Above;
    if s == [] {
      NoneByPriority();
      assert Descending([]) by { OneDescends(Record(0, 0, 0, 0, [])); }
    } else {
      var i := Pick(s, draws(k, BlockSum(s)));
      var t := Removed(s, i);
      var rest := Weighted(t, draws, k + 1);
      DescendsByRemoval(s, i);
      WeightedOrder(t, draws, k + 1);
      WeightedPermutation(t, draws, k + 1);
      FirstByPriority(s[i], rest);
      assert Above(t, [s[i]]) <==> Above(rest, [s[i]]) by { SameAbove(t, rest, [s[i]]); }
    }
  }

  lemma SameAbove(s: seq<Record>, t: seq<Record>, b: seq<Record>)
    requires multiset(s) == multiset(t)
    ensures Above(s, b) <==> Above(t, b)
  {
    assert forall x :: x in s <==> x in multiset(s);
    assert forall x :: x in t <==> x in multiset(t);
  }

  /** As written, a record keeps the order exactly when none before it has a lower priority
      number: the copy at the tail stands behind all of them. */
  lemma PlacedDescends(s: seq<Record>, r: Record)
    ensures Descending(PlacedAsWritten(s, r)) <==> Descending(s + [r])
    ensures forall x :: x in PlacedAsWritten(s, r) <==> x in s || x == r
  {
    hide Descending, Above, Slot, Inserted;
    var k := Slot(s, r);
    if k < |s| {
      OneDescends(r);
      SlotAbove(s, r);
      Inside(s, k, r);
      DescendingParts(Placed(s, r), [r]);
      DescendingParts(s, [r]);
      BetweenDescends(s[..k], r, s[k..]);
      AboveParts(s[..k], [r] + s[k..], [r]);
      AboveParts(s[..k], s[k..], [r]);
      AboveParts([r], s[k..], [r]);
    }
  }

  lemma Inside(s: seq<Record>, k: nat, r: Record)
    requires k <= |s|
    ensures s == s[..k] + s[k..] && Inserted(s, k, r) == s[..k] + ([r] + s[k..])
    ensures forall x :: x in Inserted(s, k, r) <==> x in s || x == r
  {
    assert forall x :: x in s <==> x in s[..k] || x in s[k..];
  }

  /** Behind the place that the scan finds no priority number is higher. */
  lemma SlotAbove(s: seq<Record>, r: Record)
    ensures Descending(s) ==> Above([r], s[Slot(s, r)..])
  {
    var i, k := LowerOrEqual(s, r.priority, 0), Slot(s, r);
    if Descending(s) {
      assert forall j | k <= j < |s| :: s[j].priority <= s[i].priority;
    }
  }

  lemma {:induction false} AsWrittenDescends(rs: seq<Record>)
    ensures Descending(SortAsWritten(rs)) <==> Descending(rs)
    ensures forall x :: x in SortAsWritten(rs) <==> x in rs
  {
    hide PlacedAsWritten, Descending, Above;
    if rs != [] {
      var n := |rs| - 1;
      var p, r := rs[..n], rs[n];
      assert rs == p + [r];
      AsWrittenDescends(p);
      PlacedDescends(SortAsWritten(p), r);
      DescendingParts(SortAsWritten(p), [r]);
      DescendingParts(p, [r]);
      assert Above(SortAsWritten(p), [r]) <==> Above(p, [r]) by { MembersAbove(SortAsWritten(p), p, r); }
    }
  }

  lemma MembersAbove(s: seq<Record>, t: seq<Record>, r: Record)
    requires forall x :: x in s <==> x in t
    ensures Above(s, [r]) <==> Above(t, [r])
  {
  }

  // ------------------------------------------------------------- on the lists

  /** Step 3 for one record: the scan for its place, then the insertion; as the program stands,
      the record is pushed at the tail whether it was inserted or not. */
  method PlaceRecord(dst: List<Record>, r: Record, repaired: bool)
    requires dst.Valid()
    modifies dst, dst.head
    ensures dst.Valid()
    ensures dst.Contents() == if repaired then Placed(old(dst.Contents()), r) else PlacedAsWritten(old(dst.Contents()), r)
    ensures dst.head == old(dst.head) || fresh(dst.head)
  {
    ghost var s := dst.Contents();
    var i := 0;
    var handled := false;
    while i < dst.size && r.priority < dst.head[i].priority
      invariant i <= dst.size && LowerOrEqual(s, r.priority, 0) == LowerOrEqual(s, r.priority, i)
    {
      i := i + 1;
    }
    if i < dst.size {
      if r.weight == 0 {
        ghost var from := i;
        while i < dst.size && r.priority == dst.head[i].priority
          invariant from <= i <= dst.size && OtherPriority(s, r.priority, from) == OtherPriority(s, r.priority, i)
        {
          i := i + 1;
        }
      }
      assert i == Slot(s, r);
      if i < dst.size {
        dst.InsertAt(i, r);
        handled := true;
      }
    }
    if !handled || !repaired {
      assert !handled ==> Placed(s, r) == s + [r];
      dst.Push(r);
    }
  }

  method Sort(rs: seq<Record>, repaired: bool) returns (dst: List<Record>)
    ensures dst.Valid() && fresh(dst) && fresh(dst.head) && dst.Contents() == Prioritized(rs, repaired)
  {
    dst := new List(10);
    for j := 0 to |rs|
      invariant dst.Valid() && fresh(dst) && fresh(dst.head) && dst.Contents() == Prioritized(rs[..j], repaired)
    {
      assert rs[..j + 1][..j] == rs[..j];
      PlaceRecord(dst, rs[j], repaired);
    }
    assert rs[..|rs|] == rs;
  }

  /** The weights of the last priority, added from the tail. */
  method PrioritySum(src: List<Record>) returns (sum: nat)
    requires src.Valid() && src.size > 0
    ensures sum == BlockSum(src.Contents())
  {
    hide BlockStart;
    ghost var s := src.Contents();
    var curr := src.size - 1;
    var priority, i := src.head[curr].priority, curr;
    sum := 0;
    while i >= 0 && src.head[i].priority == priority
      invariant -1 <= i <= curr && sum == WeightSum(s, i + 1)
      invariant forall k | i < k <= curr :: s[k].priority == priority
    {
      sum := sum + src.head[i].weight;
      i := i - 1;
    }
    BlockStartIs(s, i + 1);
  }

  /** The first record, from the tail, whose running sum reaches the draw. */
  method RunningSum(src: List<Record>, rnd: nat) returns (i: nat)
    requires src.Valid() && src.size > 0 && rnd <= BlockSum(src.Contents())
    ensures i == Pick(src.Contents(), rnd)
  {
    hide BlockStart;
    ghost var s := src.Contents();
    i := src.size - 1;
    var runSum := src.head[i].weight;
    while runSum < rnd
      invariant BlockStart(s) <= i < src.size && runSum == WeightSum(s, i)
      invariant Pick(s, rnd) == PickFrom(s, rnd, i)
      decreases i
    {
      assert i > 0;
      i := i - 1;
      runSum := runSum + src.head[i].weight;
    }
  }

  /** Step 4 for one draw: the sum, the draw, the record it selects. */
  method DrawRecord(src: List<Record>, draws: Draws, k: nat) returns (r: Record)
    requires src.Valid() && src.size > 0 && InRange(draws)
    modifies src`size, src.head
    ensures src.Valid()
    ensures var s := old(src.Contents()); var i := Pick(s, draws(k, BlockSum(s)));
            r == s[i] && src.Contents() == Removed(s, i)
  {
    hide Pick, BlockSum;
    var sum := PrioritySum(src);
    var i := RunningSum(src, draws(k, sum));
    r := src.ShiftAt(i);
  }

  lemma BlockStartIs(s: seq<Record>, b: nat)
    requires b < |s| && forall k | b <= k < |s| :: s[k].priority == s[|s| - 1].priority
    requires b > 0 ==> s[b - 1].priority != s[|s| - 1].priority
    ensures BlockStart(s) == b
  {
    var k := BlockStart(s);
  }

  lemma WeightedStep(s: seq<Record>, draws: Draws, k: nat, done: seq<Record>)
    requires InRange(draws)
    ensures s == [] ==> done + Weighted(s, draws, k) == done
    ensures s != [] ==>
              var i := Pick(s, draws(k, BlockSum(s)));
              done + Weighted(s, draws, k) == done + [s[i]] + Weighted(Removed(s, i), draws, k + 1)
  {
    hide Pick, BlockSum, Removed;
  }

  method Select(src: List<Record>, draws: Draws) returns (dst: seq<Record>)
    requires src.Valid() && InRange(draws)
    modifies src`size, src.head
    ensures dst == Weighted(old(src.Contents()), draws, 0)
  {
    hide Pick, BlockSum, Removed, Weighted, InRange;
    dst := [];
    var k := 0;
    ghost var goal := Weighted(src.Contents(), draws, 0);
    while src.size >= 1
      invariant src.Valid() && src.head == old(src.head) && goal == dst + Weighted(src.Contents(), draws, k)
      decreases src.size
    {
      WeightedStep(src.Contents(), draws, k, dst);
      ghost var n := |src.Contents()|;
      var r := DrawRecord(src, draws, k);
      assert |src.Contents()| == n - 1;
      dst := dst + [r];
      k := k + 1;
    }
    WeightedStep(src.Contents(), draws, k, dst);
  }
}
