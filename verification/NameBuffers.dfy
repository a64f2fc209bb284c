/** The name routines as loops that write into buffers, proved against Names and NameText. */
module NameBuffers {
  import opened Bytes
  import opened Limits
  import opened NameText
  import opened Names

  /** Copies `n` octets of `src` from position `p` to position `at` of the buffer. */
  method Memcpy(dst: array<byte>, at: nat, src: seq<byte>, p: nat, n: nat)
    requires at + n <= dst.Length && p + n <= |src|
    modifies dst
    ensures dst[..] == old(dst[..at]) + src[p..p + n] + old(dst[at + n..])
  {
    forall k | 0 <= k < n {
      dst[at + k] := src[p + k];
    }
    assert dst[at..at + n] == src[p..p + n];
  }

  /** A label, and the dot that follows it in text. */
  method CopyLabel(buf: array<byte>, at: nat, src: seq<byte>, p: nat, n: nat)
    requires at + n < buf.Length && p + n <= |src|
    modifies buf
    ensures buf[..] == old(buf[..at]) + src[p..p + n] + [DOT] + old(buf[at + n + 1..])
  {
    Memcpy(buf, at, src, p, n);
    buf[at + n] := DOT;
  }

  /** The name at `p` is `done`, already written, and then what stands at `q`. */
  ghost predicate Reading(m: seq<byte>, p: nat, done: seq<Label>, q: nat, depth: nat) {
    LabelsOk(done) && Labels(m, p, depth) == Prefixed(done, Labels(m, q, depth))
  }

  lemma ReadStart(m: seq<byte>, p: nat, depth: nat)
    ensures LabelsOk([]) && Reading(m, p, [], p, depth) && Body([]) == [] && Text([]) == []
  {
    NoPrefix(Labels(m, p, depth));
  }

  /** The message ends too early, or holds one pointer too many. */
  predicate Stuck(m: seq<byte>, q: nat, depth: nat) {
    || q >= |m|
    || (m[q] >= COMPRESSED && (depth == 0 || q + 1 == |m|))
    || (0 < m[q] < COMPRESSED && q + 1 + m[q] > |m|)
  }

  lemma ReadStuck(m: seq<byte>, p: nat, done: seq<Label>, q: nat, depth: nat, size: nat)
    requires Reading(m, p, done, q, depth) && Stuck(m, q, depth)
    ensures Expand(m, p, size, depth) == None && Extract(m, p, size, depth) == None
  {
  }

  lemma ReadLabel(m: seq<byte>, p: nat, done: seq<Label>, q: nat, depth: nat) returns (l: Label)
    requires Reading(m, p, done, q, depth) && q < |m| && 0 < m[q] < COMPRESSED && q + 1 + m[q] <= |m|
    ensures l == m[q + 1..q + 1 + m[q]] && Reading(m, p, done + [l], q + 1 + m[q], depth)
    ensures LabelsOk(done) && LabelsOk(done + [l])
    ensures Body(done + [l]) == Body(done) + m[q..q + 1 + m[q]]
    ensures Text(done + [l]) == Text(done) + l + [DOT]
  {
    l := m[q + 1..q + 1 + m[q]];
    PrefixTwice(done, [l], Labels(m, q + 1 + m[q], depth));
    BodyConcat(done, [l]);
    TextConcat(done, [l]);
    assert Body([l]) == [|l|] + l == m[q..q + 1 + m[q]];
    assert Text(done) + (l + [DOT]) == Text(done) + l + [DOT];
  }

  /** What is still to come takes room: a length octet, a label and a terminator at least. */
  lemma TooLong(m: seq<byte>, p: nat, done: seq<Label>, q: nat, depth: nat, size: nat)
    requires Reading(m, p, done, q, depth) && |Body(done)| <= size
    requires q < |m| && m[q] < COMPRESSED
    requires if m[q] == 0 then |Body(done)| == size else |Body(done)| + m[q] + 1 >= size
    ensures Expand(m, p, size, depth) == None && Extract(m, p, size, depth) == None
  {
    var r := Labels(m, q, depth);
    if r.Some? {
      BodyConcat(done, r.value);
      TextLength(done + r.value);
    }
  }

  lemma ReadAll(m: seq<byte>, p: nat, done: seq<Label>, q: nat, depth: nat, size: nat)
    requires Reading(m, p, done, q, depth) && q < |m| && m[q] == 0 && |Body(done)| < size
    ensures LabelsOk(done)
    ensures Expand(m, p, size, depth) == Some(Body(done) + [0])
    ensures |Text(done)| == |Body(done)| && Extract(m, p, size, depth) == Some(Text(done))
  {
    assert done + [] == done;
    TextLength(done);
  }

  /** Following a pointer: the rest goes into the rest of the buffer. */
  lemma ReadOn(m: seq<byte>, p: nat, done: seq<Label>, q: nat, depth: nat, size: nat)
    requires Reading(m, p, done, q, depth) && |Body(done)| <= size
    requires q + 1 < |m| && m[q] >= COMPRESSED && depth > 0
    ensures LabelsOk(done) && |Text(done)| == |Body(done)|
    ensures var t, room := Target(m[q], m[q + 1]), size - |Body(done)|;
            && Expand(m, p, size, depth)
               == (match Expand(m, t, room, depth - 1) case None => None case Some(w) => Some(Body(done) + w))
            && Extract(m, p, size, depth)
               == (match Extract(m, t, room, depth - 1) case None => None case Some(x) => Some(Text(done) + x))
  {
    TextLength(done);
    var r := Labels(m, Target(m[q], m[q + 1]), depth - 1);
    if r.Some? {
      BodyConcat(done, r.value);
      TextConcat(done, r.value);
      assert Wire(done + r.value) == Body(done) + Wire(r.value);
    }
  }

  method DnameExpand(m: seq<byte>, dst: array<byte>, at: nat, p: nat, lenIn: nat, depth: nat)
    returns (ok: bool, len: nat)
    requires at <= dst.Length
    modifies dst
    ensures ok <==> Expand(m, p, dst.Length - at, depth).Some?
    ensures ok ==> var w := Expand(m, p, dst.Length - at, depth).value;
                   len == lenIn + |w| && at + |w| <= dst.Length && dst[..at + |w|] == old(dst[..at]) + w
    ensures dst[..at] == old(dst[..at])
    decreases depth
  {
    hide Labels, Prefixed, Reading, LabelsOk, Body, Text, Expand, Extract;
    var d, q := at, p;
    len := lenIn;
    ghost var done: seq<Label> := [];
    ReadStart(m, p, depth);
    while true
      invariant LabelsOk(done) && Reading(m, p, done, q, depth)
      invariant at + |Body(done)| == d <= dst.Length && len == lenIn + |Body(done)|
      invariant dst[..d] == old(dst[..at]) + Body(done)
      decreases |m| - q
    {
      if q >= |m| {
        ReadStuck(m, p, done, q, depth, dst.Length - at);
        return false, len;
      }
      if m[q] == 0 {
        if d >= dst.Length {
          TooLong(m, p, done, q, depth, dst.Length - at);
          return false, len;
        }
        ReadAll(m, p, done, q, depth, dst.Length - at);
        dst[d] := 0;
        return true, len + 1;
      }
      if m[q] >= COMPRESSED {
        if depth == 0 || q + 1 == |m| {
          ReadStuck(m, p, done, q, depth, dst.Length - at);
          return false, len;
        }
        ReadOn(m, p, done, q, depth, dst.Length - at);
        ok, len := DnameExpand(m, dst, d, Target(m[q], m[q + 1]), len, depth - 1);
        assert dst[..at] == dst[..d][..at];
        return;
      }
      if d + m[q] + 1 >= dst.Length {
        TooLong(m, p, done, q, depth, dst.Length - at);
        return false, len;
      }
      if q + 1 + m[q] > |m| {
        ReadStuck(m, p, done, q, depth, dst.Length - at);
        return false, len;
      }
      ghost var l := ReadLabel(m, p, done, q, depth);
      Memcpy(dst, d, m, q, m[q] + 1);
      done := done + [l];
      d, q, len := d + m[q] + 1, q + m[q] + 1, len + m[q] + 1;
    }
  }

  method DnameExtract(m: seq<byte>, buf: array<byte>, at: nat, p: nat, lenIn: nat, depth: nat)
    returns (ok: bool, total: nat)
    requires at <= buf.Length
    modifies buf
    ensures ok <==> Extract(m, p, buf.Length - at, depth).Some?
    ensures ok ==> var t := Extract(m, p, buf.Length - at, depth).value;
                   && total == lenIn + |t| && at + |t| < buf.Length
                   && buf[..at + |t|] == old(buf[..at]) + t && buf[at + |t|] == 0
    ensures buf[..at] == old(buf[..at])
    decreases depth
  {
    hide Labels, Prefixed, Reading, LabelsOk, Body, Text, Expand, Extract;
    var d, q := at, p;
    total := lenIn;
    ghost var done: seq<Label> := [];
    ReadStart(m, p, depth);
    while true
      invariant LabelsOk(done) && Reading(m, p, done, q, depth) && |Text(done)| == |Body(done)|
      invariant at + |Text(done)| == d <= buf.Length && total == lenIn + |Text(done)|
      invariant buf[..d] == old(buf[..at]) + Text(done)
      decreases |m| - q
    {
      if q >= |m| {
        ReadStuck(m, p, done, q, depth, buf.Length - at);
        return false, total;
      }
      if m[q] == 0 {
        if d >= buf.Length {
          TooLong(m, p, done, q, depth, buf.Length - at);
          return false, total;
        }
        ReadAll(m, p, done, q, depth, buf.Length - at);
        buf[d] := 0;
        return true, total;
      }
      if m[q] >= COMPRESSED {
        if depth == 0 || q + 1 == |m| {
          ReadStuck(m, p, done, q, depth, buf.Length - at);
          return false, total;
        }
        ReadOn(m, p, done, q, depth, buf.Length - at);
        ok, total := DnameExtract(m, buf, d, Target(m[q], m[q + 1]), total, depth - 1);
        assert buf[..at] == buf[..d][..at];
        return;
      }
      if d + m[q] + 1 >= buf.Length {
        TooLong(m, p, done, q, depth, buf.Length - at);
        return false, total;
      }
      if q + 1 + m[q] > |m| {
        ReadStuck(m, p, done, q, depth, buf.Length - at);
        return false, total;
      }
      ghost var l := ReadLabel(m, p, done, q, depth);
      CopyLabel(buf, d, m, q + 1, m[q]);
      done := done + [l];
      d, q, total := d + m[q] + 1, q + m[q] + 1, total + m[q] + 1;
    }
  }

  /** No pointer may occur in an encoded name. */
  method DnameDecode(src: seq<byte>, buf: array<byte>) returns (ok: bool, len: nat)
    modifies buf
    ensures ok <==> Decode(src, buf.Length).Some?
    ensures ok ==> var t := Decode(src, buf.Length).value;
                   len == |t| < buf.Length && buf[..|t|] == t && buf[|t|] == 0
  {
    hide Labels, Prefixed, Reading, LabelsOk, Body, Text, Expand, Extract;
    var d, q := 0, 0;
    len := 0;
    ghost var done: seq<Label> := [];
    ReadStart(src, 0, 0);
    while true
      invariant LabelsOk(done) && Reading(src, 0, done, q, 0) && |Text(done)| == |Body(done)|
      invariant |Text(done)| == d == len <= buf.Length && buf[..d] == Text(done)
      decreases |src| - q
    {
      if q >= |src| {
        ReadStuck(src, 0, done, q, 0, buf.Length);
        return false, len;
      }
      if src[q] == 0 {
        if d >= buf.Length {
          TooLong(src, 0, done, q, 0, buf.Length);
          return false, len;
        }
        ReadAll(src, 0, done, q, 0, buf.Length);
        buf[d] := 0;
        return true, len;
      }
      if src[q] >= COMPRESSED {
        ReadStuck(src, 0, done, q, 0, buf.Length);
        return false, len;
      }
      if d + src[q] + 1 >= buf.Length {
        TooLong(src, 0, done, q, 0, buf.Length);
        return false, len;
      }
      if q + 1 + src[q] > |src| {
        ReadStuck(src, 0, done, q, 0, buf.Length);
        return false, len;
      }
      ghost var l := ReadLabel(src, 0, done, q, 0);
      CopyLabel(buf, d, src, q + 1, src[q]);
      done := done + [l];
      d, q, len := d + src[q] + 1, q + src[q] + 1, len + src[q] + 1;
    }
  }

  /** The next label, if it has 1 to 63 octets; it fits whenever it is acceptable. */
  method BuildLabel(buf: array<byte>, at: nat, lab: seq<byte>) returns (ok: bool)
    requires at <= buf.Length
    modifies buf
    ensures ok <==> 1 <= |lab| <= LABEL_HIGH && at + |lab| + 1 <= buf.Length
    ensures ok ==> buf[..] == old(buf[..at]) + [|lab|] + lab + old(buf[at + |lab| + 1..])
    ensures !ok ==> buf[..] == old(buf[..])
  {
    if |lab| < 1 || |lab| > LABEL_HIGH || |lab| + 1 > buf.Length - at {
      return false;
    }
    buf[at] := |lab|;
    Memcpy(buf, at + 1, lab, 0, |lab|);
    ok := true;
  }

  /** The text `u` is labels `done`, already encoded, and then what stands at `src`. */
  ghost predicate Splitting(u: seq<byte>, done: seq<Label>, src: nat) {
    LabelsOk(done) && Split(u) == Prefixed(done, Split(Rest(u, src)))
  }

  lemma SplitLabel(u: seq<byte>, done: seq<Label>, src: nat, i: nat)
    requires src <= i <= |u| && src < |u| && Splitting(u, done, src)
    requires (forall k | src <= k < i :: u[k] != DOT) && (i < |u| ==> u[i] == DOT)
    ensures if 1 <= i - src <= LABEL_HIGH then
              && Splitting(u, done + [u[src..i]], i + 1)
              && LabelsOk(done) && LabelsOk(done + [u[src..i]])
              && Body(done + [u[src..i]]) == Body(done) + [i - src] + u[src..i]
            else Split(u) == None
  {
    hide Split;
    var l := u[src..i];
    SplitNext(u, src, i);
    if 1 <= |l| <= LABEL_HIGH {
      PrefixTwice(done, [l], Split(Rest(u, i + 1)));
      BodyConcat(done, [l]);
      assert Body([l]) == [|l|] + l;
      assert Body(done) + ([|l|] + l) == Body(done) + [|l|] + l;
    }
  }

  lemma SplitNext(u: seq<byte>, src: nat, i: nat)
    requires src <= i <= |u| && src < |u|
    requires (forall k | src <= k < i :: u[k] != DOT) && (i < |u| ==> u[i] == DOT)
    ensures Split(Rest(u, src))
         == if 1 <= i - src <= LABEL_HIGH then Prefixed([u[src..i]], Split(Rest(u, i + 1))) else None
  {
    var rest := u[src..];
    assert rest[..i - src] == u[src..i];
    FirstDotUnique(rest, i - src);
    assert AfterLabel(rest) == Rest(u, i + 1);
  }

  lemma SplitStart(u: seq<byte>)
    ensures LabelsOk([]) && Splitting(u, [], 0) && Body([]) == []
  {
    assert u[0..] == u;
    NoPrefix(Split(u));
  }

  lemma SplitAll(u: seq<byte>, done: seq<Label>, src: nat)
    requires Splitting(u, done, src) && |u| <= src
    ensures LabelsOk(done) && Split(u) == Some(done)
  {
    assert done + [] == done;
  }

  method DnameEncode(t: seq<byte>, buf: array<byte>) returns (ok: bool, past: nat)
    requires t != []
    modifies buf
    ensures ok <==> Encode(t, buf.Length).Some?
    ensures ok ==> past <= buf.Length && Some(buf[..past]) == Encode(t, buf.Length)
  {
    hide Split, Splitting, Body, LabelsOk;
    var u := if t[|t| - 1] == DOT then t[..|t| - 1] else t;
    past := 0;
    if buf.Length < |u| + 2 || |u| > DNAME_ENCODED {
      return false, past;
    }
    var src := 0;
    ghost var done: seq<Label> := [];
    SplitStart(u);
    while src < |u|
      invariant LabelsOk(done) && Splitting(u, done, src)
      invariant |Body(done)| == past <= src <= |u| + 1 && buf[..past] == Body(done)
      decreases |u| + 1 - src
    {
      var i := src;
      while i < |u| && u[i] != DOT
        invariant src <= i <= |u| && forall k | src <= k < i :: u[k] != DOT
      {
        i := i + 1;
      }
      SplitLabel(u, done, src, i);
      var built := BuildLabel(buf, past, u[src..i]);
      if !built {
        return false, past;
      }
      assert buf[..past + 1 + (i - src)] == Body(done) + [i - src] + u[src..i];
      done := done + [u[src..i]];
      past, src := past + (i - src) + 1, i + 1;
    }
    assert past < buf.Length;
    buf[past] := 0;
    SplitAll(u, done, src);
    assert buf[..past + 1] == Wire(done);
    return true, past + 1;
  }

  function Rest(u: seq<byte>, i: nat): seq<byte> {
    if i < |u| then u[i..] else []
  }

  /** Both names end with the terminator; `aborted`: one of them fills the limit of a name. */
  method DnameConcat(dst: array<byte>, w1: seq<byte>, w2: seq<byte>) returns (ok: bool, len: nat, aborted: bool)
    requires 0 < |w1| && 0 < |w2| && w1[|w1| - 1] == 0 && w2[|w2| - 1] == 0
    modifies dst
    ensures aborted <==> Concat(w1, w2, dst.Length).Aborted?
    ensures ok <==> Concat(w1, w2, dst.Length).Joined?
    ensures ok ==> len <= dst.Length && Joined(dst[..len]) == Concat(w1, w2, dst.Length)
    ensures !ok ==> dst[..] == old(dst[..])
  {
    if |w1| >= DNAME_ENCODED || |w2| >= DNAME_ENCODED {
      return false, 0, true;
    }
    var len1 := |w1| - 1;
    if len1 + |w2| > DNAME_ENCODED {
      return false, 0, false;
    }
    if len1 >= dst.Length || |w2| >= dst.Length || len1 + |w2| > dst.Length {
      return false, 0, false;
    }
    Memcpy(dst, 0, w1, 0, len1);
    Memcpy(dst, len1, w2, 0, |w2|);
    assert dst[..len1 + |w2|] == w1[..len1] + w2;
    return true, len1 + |w2|, false;
  }

  method DnameCompare(m: seq<byte>, p: nat, w: seq<byte>) returns (r: Option<bool>)
    ensures r == Compare(m, p, w)
  {
    var buf := new byte[DNAME_ENCODED];
    var ok, len := DnameExpand(m, buf, 0, p, 0, COMPRESSION_DEPTH);
    if !ok {
      return None;
    }
    r := Some(len == |w| && buf[..len] == w);
  }

  method SkipRrOwner(m: seq<byte>, p: nat) returns (next: Option<nat>)
    ensures next == Skip(m, p)
  {
    var q := p;
    while true
      invariant Skip(m, p) == Skip(m, q)
      decreases |m| - q
    {
      if q >= |m| {
        return None;
      }
      if m[q] == 0 {
        return Some(q + 1);
      }
      if m[q] >= COMPRESSED {
        if q + 2 > |m| {
          return None;
        }
        return Some(q + 2);
      }
      q := q + 1 + m[q];
    }
  }
}
