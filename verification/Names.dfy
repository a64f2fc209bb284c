/** Domain names: labels, their wire form with compression (sections 3.1 and 4.1.4 of
    RFC 1035), and their text form. */
module Names {
  import opened Bytes
  import opened Limits

  type Label = seq<byte>

  /** A length octet below 0xC0 starts a label; the text forms allow at most 63 octets. */
  const COMPRESSED := 0xC0
  const DOT: byte := 46

  predicate LabelOk(l: Label) {
    1 <= |l| < COMPRESSED
  }

  predicate LabelsOk(ls: seq<Label>) {
    forall i | 0 <= i < |ls| :: LabelOk(ls[i])
  }

  // ------------------------------------------------------------ wire form

  /** The labels, each after its length octet. */
  function Body(ls: seq<Label>): seq<byte>
    requires LabelsOk(ls)
  {
    if ls == [] then [] else [|ls[0]|] + ls[0] + Body(ls[1..])
  }

  /** A whole name ends with the empty label. */
  function Wire(ls: seq<Label>): seq<byte>
    requires LabelsOk(ls)
  {
    Body(ls) + [0]
  }

  /** The labels, each before a dot. */
  function Text(ls: seq<Label>): seq<byte> {
    if ls == [] then [] else ls[0] + [DOT] + Text(ls[1..])
  }

  function Target(hi: byte, lo: byte): nat {
    Pack2(hi, lo) % 0x4000
  }

  /** What a name at position `p` of message `m` denotes, following at most `depth`
      pointers. A label or a pointer cut by the end of the message is a failure. */
  function Labels(m: seq<byte>, p: nat, depth: nat): (r: Option<seq<Label>>)
    ensures r.Some? ==> LabelsOk(r.value)
    decreases depth, |m| - p
  {
    if p >= |m| then None
    else if m[p] == 0 then Some([])
    else if m[p] >= COMPRESSED then
      if depth == 0 || p + 1 == |m| then None
      else Labels(m, Target(m[p], m[p + 1]), depth - 1)
    else if p + 1 + m[p] > |m| then None
    else Prefixed([m[p + 1..p + 1 + m[p]]], Labels(m, p + 1 + m[p], depth))
  }

  function Prefixed(a: seq<Label>, r: Option<seq<Label>>): Option<seq<Label>> {
    match r
    case None => None
    case Some(ls) => Some(a + ls)
  }

  /** Labels `ls` are written out, uncompressed and unterminated, at position `p`. */
  ghost predicate InlineAt(m: seq<byte>, p: nat, ls: seq<Label>) {
    LabelsOk(ls) && p + |Body(ls)| <= |m| && m[p..p + |Body(ls)|] == Body(ls)
  }

  lemma {:induction false} BodyConcat(a: seq<Label>, b: seq<Label>)
    requires LabelsOk(a) && LabelsOk(b)
    ensures LabelsOk(a + b) && Body(a + b) == Body(a) + Body(b)
  {
    if a == [] {
      assert a + b == b;
    } else {
      BodyConcat(a[1..], b);
      assert (a + b)[0] == a[0] && (a + b)[1..] == a[1..] + b;
      var l := [|a[0]|] + a[0];
      assert l + (Body(a[1..]) + Body(b)) == l + Body(a[1..]) + Body(b);
    }
  }

  lemma {:induction false} TextConcat(a: seq<Label>, b: seq<Label>)
    ensures Text(a + b) == Text(a) + Text(b)
  {
    if a == [] {
      assert a + b == b;
    } else {
      TextConcat(a[1..], b);
      assert (a + b)[1..] == a[1..] + b;
      var l := a[0] + [DOT];
      assert l + (Text(a[1..]) + Text(b)) == l + Text(a[1..]) + Text(b);
    }
  }

  /** The wire form has one octet more than the text. */
  lemma {:induction false} TextLength(ls: seq<Label>)
    requires LabelsOk(ls)
    ensures |Text(ls)| == |Body(ls)| >= 2 * |ls|
  {
    if ls != [] {
      TextLength(ls[1..]);
    }
  }

  lemma InlineSplit(m: seq<byte>, p: nat, a: seq<Label>, b: seq<Label>)
    requires LabelsOk(a) && LabelsOk(b)
    ensures LabelsOk(a + b)
    ensures InlineAt(m, p, a + b) <==> InlineAt(m, p, a) && InlineAt(m, p + |Body(a)|, b)
  {
    hide LabelsOk, Body;
    BodyConcat(a, b);
    if p + |Body(a)| + |Body(b)| <= |m| {
      SliceSplit(m, p, Body(a), Body(b));
    }
  }

  lemma SliceSplit(m: seq<byte>, p: nat, x: seq<byte>, y: seq<byte>)
    requires p + |x| + |y| <= |m|
    ensures m[p..p + |x| + |y|] == x + y <==> m[p..p + |x|] == x && m[p + |x|..p + |x| + |y|] == y
  {
    var s := m[p..p + |x| + |y|];
    assert s[..|x|] == m[p..p + |x|];
    assert s[|x|..] == m[p + |x|..p + |x| + |y|];
    assert (x + y)[..|x|] == x && (x + y)[|x|..] == y;
    assert s == s[..|x|] + s[|x|..];
  }

  lemma InlineOne(m: seq<byte>, p: nat, l: Label)
    requires LabelOk(l)
    ensures InlineAt(m, p, [l]) <==> p + 1 + |l| <= |m| && m[p] == |l| && m[p + 1..p + 1 + |l|] == l
    ensures |Body([l])| == 1 + |l|
  {
    assert Body([l]) == [|l|] + l;
    if p + 1 + |l| <= |m| {
      assert m[p..p + 1 + |l|] == [m[p]] + m[p + 1..p + 1 + |l|];
    }
  }

  /** Labels written out in place come first in the denotation. */
  lemma {:induction false} LabelsInline(m: seq<byte>, p: nat, ls: seq<Label>, depth: nat)
    requires InlineAt(m, p, ls)
    ensures Labels(m, p, depth) == Prefixed(ls, Labels(m, p + |Body(ls)|, depth))
    decreases |ls|
  {
    hide Labels, Body;
    if ls == [] {
      BodyNone();
      NoPrefix(Labels(m, p, depth));
    } else {
      assert ls == [ls[0]] + ls[1..];
      BodyConcat([ls[0]], ls[1..]);
      InlineSplit(m, p, [ls[0]], ls[1..]);
      LabelsOne(m, p, ls[0], depth);
      LabelsInline(m, p + 1 + |ls[0]|, ls[1..], depth);
      PrefixTwice([ls[0]], ls[1..], Labels(m, p + |Body(ls)|, depth));
    }
  }

  lemma BodyNone()
    ensures Body([]) == []
  {
  }

  lemma LabelsOne(m: seq<byte>, p: nat, l: Label, depth: nat)
    requires InlineAt(m, p, [l])
    ensures |Body([l])| == 1 + |l|
    ensures Labels(m, p, depth) == Prefixed([l], Labels(m, p + 1 + |l|, depth))
  {
    assert LabelOk([l][0]);
    InlineOne(m, p, l);
  }

  lemma NoPrefix(r: Option<seq<Label>>)
    ensures Prefixed([], r) == r
  {
    assert r.Some? ==> [] + r.value == r.value;
  }

  lemma PrefixTwice(a: seq<Label>, b: seq<Label>, r: Option<seq<Label>>)
    ensures Prefixed(a, Prefixed(b, r)) == Prefixed(a + b, r)
  {
    assert r.Some? ==> a + (b + r.value) == a + b + r.value;
  }

  lemma InlineMiddle(pre: seq<byte>, ls: seq<Label>, post: seq<byte>)
    requires LabelsOk(ls)
    ensures InlineAt(pre + Body(ls) + post, |pre|, ls)
  {
    assert (pre + Body(ls) + post)[|pre|..|pre| + |Body(ls)|] == Body(ls);
  }

  /** A name written out in full denotes its labels, wherever it stands and whatever follows. */
  lemma LabelsOfWire(pre: seq<byte>, ls: seq<Label>, post: seq<byte>, depth: nat)
    requires LabelsOk(ls)
    ensures Labels(pre + Wire(ls) + post, |pre|, depth) == Some(ls)
  {
    var m := pre + Wire(ls) + post;
    assert m == pre + Body(ls) + ([0] + post);
    InlineMiddle(pre, ls, [0] + post);
    LabelsInline(m, |pre|, ls, depth);
    assert m[|pre| + |Body(ls)|] == 0;
    assert ls + [] == ls;
  }

  lemma WireInjective(a: seq<Label>, b: seq<Label>)
    requires LabelsOk(a) && LabelsOk(b) && Wire(a) == Wire(b)
    ensures a == b
  {
    LabelsOfWire([], a, [], 0);
    LabelsOfWire([], b, [], 0);
    assert [] + Wire(a) + [] == Wire(a);
    assert [] + Wire(b) + [] == Wire(b);
  }

  // ---------------------------------------------------------- compression

  /** More octets at the end, or more depth, never change a name that is understood. */
  lemma {:induction false} LabelsExtend(m: seq<byte>, post: seq<byte>, p: nat, depth: nat, more: nat)
    requires Labels(m, p, depth).Some? && depth <= more
    ensures Labels(m + post, p, more) == Labels(m, p, depth)
    decreases depth, |m| - p
  {
    if m[p] == 0 {
    } else if m[p] >= COMPRESSED {
      LabelsExtend(m, post, Target(m[p], m[p + 1]), depth - 1, more - 1);
    } else {
      LabelsExtend(m, post, p + 1 + m[p], depth, more);
      assert (m + post)[p + 1..p + 1 + m[p]] == m[p + 1..p + 1 + m[p]];
    }
  }

  function Pointer(t: nat): seq<byte>
    requires t < 0x4000
  {
    Unpack2(0xC000 + t)
  }

  lemma LabelsOfPointer(m: seq<byte>, p: nat, t: nat, depth: nat)
    requires t < 0x4000 && p + 2 <= |m| && m[p..p + 2] == Pointer(t)
    ensures Labels(m, p, depth + 1) == Labels(m, t, depth)
    ensures Labels(m, p, 0) == None
  {
    assert m[p] == m[p..p + 2][0] && m[p + 1] == m[p..p + 2][1];
  }

  /** Compression: a name whose last labels `b` are replaced by a pointer to an equal name
      denotes the same labels as the name written out, at the cost of one pointer of depth. */
  lemma SuffixByPointer(m: seq<byte>, t: nat, a: seq<Label>, b: seq<Label>, post: seq<byte>, depth: nat)
    requires t < 0x4000 && Labels(m, t, depth) == Some(b) && LabelsOk(a)
    ensures LabelsOk(a + b)
    ensures Labels(m + Wire(a + b) + post, |m|, depth + 1) == Some(a + b)
    ensures Labels(m + (Body(a) + Pointer(t) + post), |m|, depth + 1) == Some(a + b)
  {
    LabelsOfWire(m, a + b, post, depth + 1);
    PointerAfter(m, t, a, b, post, depth);
  }

  lemma PointerAfter(m: seq<byte>, t: nat, a: seq<Label>, b: seq<Label>, post: seq<byte>, depth: nat)
    requires t < 0x4000 && Labels(m, t, depth) == Some(b) && LabelsOk(a)
    ensures Labels(m + (Body(a) + Pointer(t) + post), |m|, depth + 1) == Some(a + b)
  {
    hide Labels, Body, LabelsOk;
    var tail := Pointer(t) + post;
    var c, e := m + (Body(a) + tail), |m| + |Body(a)|;
    assert c == m + (Body(a) + Pointer(t) + post) == m + Body(a) + tail;
    LabelsExtend(m, Body(a) + tail, t, depth, depth);
    InlineMiddle(m, a, tail);
    LabelsInline(c, |m|, a, depth + 1);
    assert c[e..e + 2] == Pointer(t);
    LabelsOfPointer(c, e, t, depth);
  }

  /** From position `p` on, the name follows exactly `k` pointers before its terminator. */
  predicate Follows(m: seq<byte>, p: nat, k: nat)
    decreases k, |m| - p
  {
    if p >= |m| then false
    else if m[p] == 0 then k == 0
    else if m[p] >= COMPRESSED then k > 0 && p + 1 < |m| && Follows(m, Target(m[p], m[p + 1]), k - 1)
    else p + 1 + m[p] <= |m| && Follows(m, p + 1 + m[p], k)
  }

  lemma {:induction false} FollowsOnce(m: seq<byte>, p: nat, k: nat, l: nat)
    requires Follows(m, p, k) && Follows(m, p, l)
    ensures k == l
    decreases k, |m| - p
  {
    if m[p] >= COMPRESSED {
      FollowsOnce(m, Target(m[p], m[p + 1]), k - 1, l - 1);
    } else if m[p] != 0 {
      FollowsOnce(m, p + 1 + m[p], k, l);
    }
  }

  ghost predicate FollowsWithin(m: seq<byte>, p: nat, k: nat, depth: nat) {
    k <= depth && Follows(m, p, k)
  }

  /** A name is understood exactly when the number of its pointers, the only one it can have,
      is at most the depth; a chain of one more is refused, and a cycle has no such number. */
  lemma {:induction false} DepthExactly(m: seq<byte>, p: nat, depth: nat)
    ensures Labels(m, p, depth).Some? <==> exists k: nat :: FollowsWithin(m, p, k, depth)
    ensures forall k: nat, l: nat | Follows(m, p, k) && Follows(m, p, l) :: k == l
    decreases depth, |m| - p
  {
    forall k: nat, l: nat | Follows(m, p, k) && Follows(m, p, l)
      ensures k == l
    {
      FollowsOnce(m, p, k, l);
    }
    if p >= |m| {
    } else if m[p] == 0 {
      assert FollowsWithin(m, p, 0, depth);
    } else if m[p] < COMPRESSED {
      var next := p + 1 + m[p];
      if next <= |m| {
        DepthExactly(m, next, depth);
        assert forall k: nat :: FollowsWithin(m, p, k, depth) <==> FollowsWithin(m, next, k, depth);
      }
    } else if depth > 0 && p + 1 < |m| {
      var t, less := Target(m[p], m[p + 1]), depth - 1;
      DepthExactly(m, t, less);
      if exists k: nat :: FollowsWithin(m, p, k, depth) {
        var k: nat :| FollowsWithin(m, p, k, depth);
        assert FollowsWithin(m, t, k - 1, less);
      }
      if exists k: nat :: FollowsWithin(m, t, k, less) {
        var k: nat :| FollowsWithin(m, t, k, less);
        assert FollowsWithin(m, p, k + 1, depth);
      }
    }
  }

  /** A name that is a pointer to itself is understood at no depth. */
  lemma {:induction false} ChainTooDeep(m: seq<byte>, depth: nat)
    requires |m| >= 2 && m[..2] == Pointer(0)
    ensures Labels(m, 0, depth) == None
  {
    if depth > 0 {
      ChainTooDeep(m, depth - 1);
      LabelsOfPointer(m, 0, 0, depth - 1);
    } else {
      LabelsOfPointer(m, 0, 0, 0);
    }
  }

  // ------------------------------------------------- expand, extract, decode

  /** The result written to a buffer of `size` octets. */
  function Expand(m: seq<byte>, p: nat, size: nat, depth: nat): Option<seq<byte>> {
    match Labels(m, p, depth)
    case None => None
    case Some(ls) => if |Wire(ls)| <= size then Some(Wire(ls)) else None
  }

  /** The text takes one octet more in the buffer, for the end of the string. */
  function Extract(m: seq<byte>, p: nat, size: nat, depth: nat): Option<seq<byte>> {
    match Labels(m, p, depth)
    case None => None
    case Some(ls) => if |Text(ls)| < size then Some(Text(ls)) else None
  }

  /** Decoding allows no pointers at all. */
  function Decode(w: seq<byte>, size: nat): Option<seq<byte>> {
    Extract(w, 0, size, 0)
  }

  /** An expanded name is at most 255 octets long, has no pointer left, and expands to itself. */
  lemma ExpandFixedPoint(m: seq<byte>, p: nat)
    requires Expand(m, p, DNAME_ENCODED, COMPRESSION_DEPTH).Some?
    ensures var w := Expand(m, p, DNAME_ENCODED, COMPRESSION_DEPTH).value;
            && 1 <= |w| <= DNAME_ENCODED && w[|w| - 1] == 0
            && Labels(w, 0, 0) == Labels(m, p, COMPRESSION_DEPTH)
            && forall depth: nat :: Expand(w, 0, DNAME_ENCODED, depth) == Some(w)
  {
    var ls := Labels(m, p, COMPRESSION_DEPTH).value;
    assert [] + Wire(ls) + [] == Wire(ls);
    forall depth: nat
      ensures Labels(Wire(ls), 0, depth) == Some(ls)
    {
      LabelsOfWire([], ls, [], depth);
    }
  }

  /** Extracting text straight from a compressed message is expanding, then decoding. */
  lemma ExtractIsDecodeExpand(m: seq<byte>, p: nat, size: nat, textSize: nat)
    requires Expand(m, p, size, COMPRESSION_DEPTH).Some?
    ensures Extract(m, p, textSize, COMPRESSION_DEPTH) == Decode(Expand(m, p, size, COMPRESSION_DEPTH).value, textSize)
  {
    var ls := Labels(m, p, COMPRESSION_DEPTH).value;
    assert [] + Wire(ls) + [] == Wire(ls);
    LabelsOfWire([], ls, [], 0);
  }

  /** Decoding a name succeeds exactly when its wire form is no longer than the buffer. */
  lemma DecodeFits(ls: seq<Label>, size: nat)
    requires LabelsOk(ls)
    ensures Decode(Wire(ls), size) == if |Wire(ls)| <= size then Some(Text(ls)) else None
  {
    assert [] + Wire(ls) + [] == Wire(ls);
    LabelsOfWire([], ls, [], 0);
    TextLength(ls);
  }

  // ----------------------------------------------------------- skip owner

  /** The position after the name at `p`, without following pointers. */
  function Skip(m: seq<byte>, p: nat): (r: Option<nat>)
    ensures r.Some? ==> p < r.value <= |m|
    decreases |m| - p
  {
    if p >= |m| then None
    else if m[p] == 0 then Some(p + 1)
    else if m[p] >= COMPRESSED then if p + 2 > |m| then None else Some(p + 2)
    else Skip(m, p + 1 + m[p])
  }

  /** The name at `p` is labels `a` in place, then the terminator or a pointer. */
  ghost predicate EndsAt(m: seq<byte>, p: nat, a: seq<Label>, ls: seq<Label>, q: nat, depth: nat) {
    && InlineAt(m, p, a)
    && var e := p + |Body(a)|;
       || (q == e + 1 <= |m| && m[e] == 0 && ls == a)
       || (q == e + 2 <= |m| && m[e] >= COMPRESSED && depth > 0
           && Prefixed(a, Labels(m, Target(m[e], m[e + 1]), depth - 1)) == Some(ls))
  }

  /** Where expansion succeeds, skipping lands just past the terminator or the pointer
      that ends the name in place. */
  lemma {:induction false} SkipLands(m: seq<byte>, p: nat, depth: nat) returns (a: seq<Label>)
    requires Labels(m, p, depth).Some?
    ensures Skip(m, p).Some? && EndsAt(m, p, a, Labels(m, p, depth).value, Skip(m, p).value, depth)
    decreases |m| - p
  {
    if m[p] == 0 || m[p] >= COMPRESSED {
      a := [];
      NoPrefix(Labels(m, p, depth));
    } else {
      var l, k := m[p + 1..p + 1 + m[p]], p + 1 + m[p];
      var rest := SkipLands(m, k, depth);
      a := [l] + rest;
      InlineOne(m, p, l);
      SkipOne(m, p, l, rest, Labels(m, k, depth).value, Skip(m, p).value, depth);
    }
  }

  lemma SkipOne(m: seq<byte>, p: nat, l: Label, rest: seq<Label>, ls: seq<Label>, q: nat, depth: nat)
    requires LabelOk(l) && InlineAt(m, p, [l])
    requires EndsAt(m, p + 1 + |l|, rest, ls, q, depth)
    ensures EndsAt(m, p, [l] + rest, [l] + ls, q, depth)
  {
    hide Labels, LabelsOk;
    InlineOne(m, p, l);
    InlineSplit(m, p, [l], rest);
    BodyConcat([l], rest);
    var e := p + 1 + |l| + |Body(rest)|;
    if q == e + 2 && depth > 0 {
      PrefixTwice([l], rest, Labels(m, Target(m[e], m[e + 1]), depth - 1));
    }
  }
}
