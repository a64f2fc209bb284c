/** Which texts the IPv6 parser takes for an address: words between colons, and a double colon
    for the zeros between the first and the last ones. A word is whatever `strtol` reads. */
module AddrGrammar {
  import opened AddrText
  import opened Bytes

  // ------------------------------------------------------------------ numbers

  const LOWER := "0123456789abcdef"
  const UPPER := "0123456789ABCDEF"

  /** The sixteen digits, in both cases, and no other characters. */
  lemma DigitExactly(c: char, d: nat)
    ensures DigitOf(c) == Some(d) <==> d < 16 && (LOWER[d] == c || UPPER[d] == c)
  {
  }

  predicate Blank(c: char) {
    c in {' ', '\t', '\n', '\r', 11 as char, 12 as char}
  }

  ghost predicate AllBlank(s: string) {
    forall k | 0 <= k < |s| :: Blank(s[k])
  }

  ghost predicate AllDigits(s: string) {
    forall k | 0 <= k < |s| :: IsXdigit(s[k])
  }

  /** The parts of a number: blanks, a sign, a prefix only before a digit, the digits, and what
      follows the last one. */
  datatype Number = Number(blanks: string, sign: string, prefix: string, digits: string, rest: string) {
    function Text(): string { blanks + sign + prefix + digits + rest }

    ghost predicate Ok() {
      && AllBlank(blanks) && sign in {"", "+", "-"} && prefix in {"", "0x", "0X"} && AllDigits(digits)
      && (rest == "" || !IsXdigit(rest[0]))
      && (prefix != "" ==> digits != "")
      && (prefix == "" && digits == "0" && |rest| >= 2 && rest[0] in {'x', 'X'} ==> !IsXdigit(rest[1]))
      && (sign == "" && digits == "" && rest != "" ==> !Blank(rest[0]) && rest[0] !in {'+', '-'})
    }
  }

  lemma {:induction false} BlanksSkipped(s: string, i: nat, e: nat)
    requires i <= e <= |s| && (forall k | i <= k < e :: Blank(s[k])) && !Blank(CharAt(s, e))
    ensures SkipSpace(s, i) == e
    decreases e - i
  {
    if i < e {
      BlanksSkipped(s, i + 1, e);
    }
  }

  /** Where the parts of a number are. */
  ghost predicate PartsAt(s: string, p: nat, q: nat, b: nat, e: nat) {
    && p <= q <= b <= e <= |s|
    && (forall k | 0 <= k < p :: Blank(s[k])) && !Blank(CharAt(s, p))
    && (q == p || (q == p + 1 && s[p] in {'+', '-'})) && (q == p ==> CharAt(s, p) !in {'+', '-'})
    && (b == q || (b == q + 2 && s[q] == '0' && s[q + 1] in {'x', 'X'} && IsXdigit(CharAt(s, b))))
    && (b == q ==> !(CharAt(s, q) == '0' && CharAt(s, q + 1) in {'x', 'X'} && IsXdigit(CharAt(s, q + 2))))
    && (forall k | b <= k < e :: IsXdigit(s[k])) && !IsXdigit(CharAt(s, e))
  }

  lemma StrtolParts(s: string, p: nat, q: nat, b: nat, e: nat)
    requires PartsAt(s, p, q, b, e)
    ensures var negative, v: int := q == p + 1 && s[p] == '-', Value(s, b, e);
            Strtol(s, 0) == if v > 0x7FFF_FFFF_FFFF_FFFF + (if negative then 1 else 0) then None
                            else Some(if negative then -v else v)
  {
    hide DigitOf, DigitsEnd, SkipSpace;
    BlanksSkipped(s, 0, p);
    DigitsEndAt(s, b, e);
  }

  lemma NumberParts(n: Number)
    requires n.Ok()
    ensures var p, q, b := |n.blanks|, |n.blanks + n.sign|, |n.blanks + n.sign + n.prefix|;
            PartsAt(n.Text(), p, q, b, b + |n.digits|)
  {
    hide DigitOf, IsXdigit;
    var s := n.Text();
    var p, q, b := |n.blanks|, |n.blanks + n.sign|, |n.blanks + n.sign + n.prefix|;
    var e := b + |n.digits|;
    NoDigit();
    assert forall k | 0 <= k < p :: s[k] == n.blanks[k];
    assert forall k | p <= k < q :: s[k] == n.sign[k - p];
    assert forall k | q <= k < b :: s[k] == n.prefix[k - q];
    assert forall k | b <= k < e :: s[k] == n.digits[k - b];
    assert forall k | e <= k < |s| :: s[k] == n.rest[k - e];
    assert |s| == e + |n.rest|;
    assert forall c | IsXdigit(c) :: !Blank(c) && c !in {'+', '-', 'x', 'X'};
  }

  /** The number is read as the value of its digits, or as 0 without one; it is out of range
      beyond 64 bits with a sign. */
  lemma StrtolReads(n: Number)
    requires n.Ok()
    ensures AllDigits(n.digits)
    ensures var v: int := Value(n.digits, 0, |n.digits|);
            Strtol(n.Text(), 0) == if n.sign == "-" then (if v > 0x8000_0000_0000_0000 then None else Some(-v))
                                   else (if v > 0x7FFF_FFFF_FFFF_FFFF then None else Some(v))
  {
    hide IsXdigit, Value, Strtol, PartsAt;
    NumberParts(n);
    var p, q, b := |n.blanks|, |n.blanks + n.sign|, |n.blanks + n.sign + n.prefix|;
    SignAt(n);
    ValueShift(n.blanks + n.sign + n.prefix, n.digits, n.rest, |n.digits|);
    StrtolParts(n.Text(), p, q, b, b + |n.digits|);
  }

  lemma SignAt(n: Number)
    ensures n.sign in {"+", "-"} ==> |n.blanks| < |n.Text()| && n.Text()[|n.blanks|] == n.sign[0]
    ensures n.sign in {"", "+", "-"} ==> |n.sign| <= 1
  {
  }

  lemma NoDigit()
    ensures !IsXdigit('\0') && !IsXdigit('+') && !IsXdigit('-') && !IsXdigit('x') && !IsXdigit('X') && !IsXdigit(':')
    ensures forall c | Blank(c) :: !IsXdigit(c)
    ensures IsXdigit('0')
  {
  }

  // --------------------------------------------------- a word among others

  /** A stretch without a colon stands at `i`, and a colon or the end of the text follows it. */
  ghost predicate StandsAt(s: string, i: nat, t: string) {
    && i + |t| <= |s| && s[i..i + |t|] == t && ':' !in t
    && (i + |t| == |s| || s[i + |t|] == ':')
  }

  lemma {:induction false} SkipLocal(s: string, i: nat, t: string, k: nat)
    requires StandsAt(s, i, t) && k <= |t|
    ensures SkipSpace(t, k) <= |t| && SkipSpace(s, i + k) == i + SkipSpace(t, k)
    decreases |t| - k
  {
    if k < |t| {
      assert s[i + k] == t[k];
      SkipLocal(s, i, t, k + 1);
    }
  }

  lemma {:induction false} DigitsLocal(s: string, i: nat, t: string, k: nat)
    requires StandsAt(s, i, t) && k <= |t|
    ensures DigitsEnd(t, k) <= |t| && DigitsEnd(s, i + k) == i + DigitsEnd(t, k)
    decreases |t| - k
  {
    if k < |t| {
      assert s[i + k] == t[k];
      DigitsLocal(s, i, t, k + 1);
    }
  }

  lemma {:induction false} ValueLocal(s: string, i: nat, t: string, k: nat, e: nat)
    requires StandsAt(s, i, t) && k <= e <= |t| && forall j | k <= j < e :: IsXdigit(t[j])
    ensures forall j | i + k <= j < i + e :: IsXdigit(s[j])
    ensures Value(s, i + k, i + e) == Value(t, k, e)
    decreases e
  {
    assert forall j | k <= j < e :: s[i + j] == t[j];
    if k < e {
      ValueLocal(s, i, t, k, e - 1);
    }
  }

  lemma CharLocal(s: string, i: nat, t: string, k: nat)
    requires StandsAt(s, i, t) && k <= |t|
    ensures if k < |t| then CharAt(s, i + k) == CharAt(t, k) else CharAt(s, i + k) in {':', '\0'} && CharAt(t, k) == '\0'
  {
    if k < |t| {
      assert s[i + k] == t[k];
    }
  }

  /** The steps of the reading, each from the one before. */
  ghost predicate ReadAs(s: string, i: nat, p: nat, q: nat, b: nat, e: nat) {
    && p == SkipSpace(s, i)
    && q == (if CharAt(s, p) == '-' || CharAt(s, p) == '+' then p + 1 else p)
    && b == (if CharAt(s, q) == '0' && (CharAt(s, q + 1) == 'x' || CharAt(s, q + 1) == 'X') && IsXdigit(CharAt(s, q + 2))
             then q + 2 else q)
    && e == DigitsEnd(s, b)
  }

  lemma ReadLocal(s: string, i: nat, t: string) returns (p: nat, q: nat, b: nat, e: nat)
    requires StandsAt(s, i, t)
    ensures ReadAs(t, 0, p, q, b, e) && ReadAs(s, i, i + p, i + q, i + b, i + e)
    ensures p <= q <= b <= e <= |t| && (CharAt(s, i + p) == '-' <==> CharAt(t, p) == '-')
  {
    hide SkipSpace, DigitsEnd, IsXdigit, StandsAt, CharAt;
    NoDigit();
    SkipLocal(s, i, t, 0);
    p := SkipSpace(t, 0);
    CharLocal(s, i, t, p);
    q := if CharAt(t, p) == '-' || CharAt(t, p) == '+' then p + 1 else p;
    AtEnd(t);
    CharLocal(s, i, t, q);
    b := q;
    if CharAt(t, q) == '0' {
      CharLocal(s, i, t, q + 1);
      if CharAt(t, q + 1) == 'x' || CharAt(t, q + 1) == 'X' {
        CharLocal(s, i, t, q + 2);
        b := if IsXdigit(CharAt(t, q + 2)) then q + 2 else q;
      }
    }
    DigitsLocal(s, i, t, b);
    e := DigitsEnd(t, b);
  }

  lemma AtEnd(t: string)
    ensures CharAt(t, |t|) == '\0'
  {
  }

  lemma StrtolIs(s: string, i: nat, p: nat, q: nat, b: nat, e: nat)
    requires ReadAs(s, i, p, q, b, e) && e <= |s|
    ensures b <= e && forall k | b <= k < e :: IsXdigit(s[k])
    ensures var negative, v: int := CharAt(s, p) == '-', Value(s, b, e);
            Strtol(s, i) == if b == e then Some(0)
                            else if v > LONG_MAX + (if negative then 1 else 0) then None
                            else Some(if negative then -v else v)
  {
    hide SkipSpace, DigitsEnd, IsXdigit, Value;
  }

  /** What is read there depends on the stretch alone. */
  lemma WordLocal(s: string, i: nat, t: string)
    requires StandsAt(s, i, t)
    ensures WordAt(s, i) == WordAt(t, 0) && IsXdigit(CharAt(s, i)) == IsXdigit(CharAt(t, 0))
  {
    hide Strtol, ReadAs, Value, IsXdigit;
    NoDigit();
    CharLocal(s, i, t, 0);
    var p, q, b, e := ReadLocal(s, i, t);
    StrtolIs(t, 0, p, q, b, e);
    StrtolIs(s, i, i + p, i + q, i + b, i + e);
    ValueLocal(s, i, t, b, e);
  }

  // ---------------------------------------------------------------- segments

  function Colons(ts: seq<string>): string {
    if ts == [] then "" else if |ts| == 1 then ts[0] else ts[0] + ":" + Colons(ts[1..])
  }

  /** It begins with a digit and is read as the word. */
  ghost predicate Segment(t: string, w: nat) {
    ':' !in t && IsXdigit(CharAt(t, 0)) && WordAt(t, 0) == Some(w)
  }

  ghost predicate Segments(ts: seq<string>, ws: seq<nat>) {
    |ts| == |ws| && forall k | 0 <= k < |ts| :: Segment(ts[k], ws[k])
  }

  /** The first one may be anything that is read as a word; alone, even nothing. */
  ghost predicate LooseSegments(ts: seq<string>, ws: seq<nat>) {
    && |ts| == |ws| > 0 && ':' !in ts[0] && WordAt(ts[0], 0) == Some(ws[0]) && (|ts| > 1 ==> ts[0] != "")
    && forall k | 1 <= k < |ts| :: Segment(ts[k], ws[k])
  }

  /** Nothing, or a double colon, whatever follows it. */
  ghost predicate Ended(s: string, e: nat, front: Option<nat>) {
    && e <= |s|
    && (if front.None? then e == |s| else e + 1 < |s| && s[e] == ':' && s[e + 1] == ':' && front.value == e + 1)
  }

  // ---------------------------------------------------------- forward search

  /** The words of these segments are found from `i` on. */
  ghost predicate FrontAt(s: string, i: nat, ts: seq<string>, ws: seq<nat>, front: Option<nat>) {
    && ts != [] && Segments(ts, ws) && i + |Colons(ts)| <= |s| && s[i..i + |Colons(ts)|] == Colons(ts)
    && Ended(s, i + |Colons(ts)|, front)
  }

  lemma {:induction false} NextColonIs(s: string, i: nat, e: nat)
    requires i <= e <= |s| && (forall k | i <= k < e :: s[k] != ':') && (e == |s| || s[e] == ':')
    ensures NextColon(s, i) == if e == |s| then None else Some(e)
    decreases e - i
  {
    if i < e {
      NextColonIs(s, i + 1, e);
    }
  }

  lemma SegmentStands(s: string, i: nat, e: nat)
    requires i <= e <= |s| && (forall k | i <= k < e :: s[k] != ':') && (e == |s| || s[e] == ':')
    ensures StandsAt(s, i, s[i..e])
  {
  }

  lemma FrontFirst(s: string, i: nat, ts: seq<string>, ws: seq<nat>, front: Option<nat>)
    requires FrontAt(s, i, ts, ws, front)
    ensures ws != [] && StandsAt(s, i, ts[0]) && Segment(ts[0], ws[0])
    ensures var e := i + |ts[0]|;
            if |ts| == 1 then Ended(s, e, front)
            else e < |s| && s[e] == ':' && FrontAt(s, e + 1, ts[1..], ws[1..], front)
  {
    hide WordAt, IsXdigit;
    var c, e := Colons(ts), i + |ts[0]|;
    assert c[..|ts[0]|] == ts[0];
    assert s[i..e] == s[i..i + |c|][..|ts[0]|];
    if |ts| > 1 {
      var d := Colons(ts[1..]);
      assert c == ts[0] + ":" + d;
      assert s[e] == s[i..i + |c|][|ts[0]|] == ':';
      assert s[e + 1..e + 1 + |d|] == s[i..i + |c|][|ts[0]| + 1..] == d;
    }
  }

  lemma FrontMore(s: string, i: nat, t: string, w: nat, ts: seq<string>, ws: seq<nat>, front: Option<nat>)
    requires StandsAt(s, i, t) && Segment(t, w) && i + |t| < |s| && FrontAt(s, i + |t| + 1, ts, ws, front)
    ensures FrontAt(s, i, [t] + ts, [w] + ws, front)
  {
    hide WordAt, IsXdigit;
    var all, d := [t] + ts, Colons(ts);
    assert all[1..] == ts;
    var c := Colons(all);
    assert c == t + ":" + d;
    assert s[i..i + |c|] == s[i..i + |t|] + [s[i + |t|]] + s[i + |t| + 1..i + |t| + 1 + |d|];
  }

  /** Such words are all found. */
  lemma {:induction false} ForwardFinds(s: string, i: nat, ts: seq<string>, ws: seq<nat>, front: Option<nat>, found: seq<nat>)
    requires FrontAt(s, i, ts, ws, front) && |found| + |ws| <= 8
    ensures ForwardWord(s, i, found) == Some((found + ws, front))
    decreases |ts|
  {
    hide WordAt, IsXdigit, FrontAt, NextColon;
    FrontLength(s, i, ts, ws, front);
    FrontFirst(s, i, ts, ws, front);
    var t := ts[0];
    var e := i + |t|;
    WordLocal(s, i, t);
    forall k | i <= k < e
      ensures s[k] != ':'
    {
      assert s[k] == s[i..e][k - i];
    }
    NextColonIs(s, i, e);
    if |ts| == 1 {
      assert found + [ws[0]] == found + ws;
    } else {
      NoDigit();
      FrontFirst(s, e + 1, ts[1..], ws[1..], front);
      WordLocal(s, e + 1, ts[1]);
      ForwardFinds(s, e + 1, ts[1..], ws[1..], front, found + [ws[0]]);
      assert found + [ws[0]] + ws[1..] == found + ws;
    }
  }

  lemma FrontLength(s: string, i: nat, ts: seq<string>, ws: seq<nat>, front: Option<nat>)
    requires FrontAt(s, i, ts, ws, front)
    ensures |ts| == |ws| > 0
  {
  }

  /** Nothing else is found. */
  lemma {:induction false} ForwardFound(s: string, i: nat, found: seq<nat>) returns (ts: seq<string>, ws: seq<nat>)
    requires i <= |s| && ForwardWord(s, i, found).Some?
    ensures var r := ForwardWord(s, i, found).value;
            FrontAt(s, i, ts, ws, r.1) && r.0 == found + ws && |found| + |ws| <= 8
    decreases |s| - i
  {
    hide WordAt, IsXdigit;
    var next := NextColon(s, i);
    var e := if next.Some? then next.value else |s|;
    ColonFree(s, i);
    var t, w := s[i..e], WordAt(s, i).value;
    SegmentStands(s, i, e);
    WordLocal(s, i, t);
    if next.None? || CharAt(s, e + 1) == ':' {
      ts, ws := [t], [w];
    } else {
      var us, vs := ForwardFound(s, e + 1, found + [w]);
      hide FrontAt;
      FrontMore(s, i, t, w, us, vs, ForwardWord(s, i, found).value.1);
      ts, ws := [t] + us, [w] + vs;
      assert found + [w] + vs == found + ([w] + vs);
    }
  }

  lemma {:induction false} ColonFree(s: string, i: nat)
    requires i <= |s|
    ensures var next := NextColon(s, i);
            var e := if next.Some? then next.value else |s|;
            forall k | i <= k < e :: s[k] != ':'
    decreases |s| - i
  {
    if i < |s| && s[i] != ':' {
      ColonFree(s, i + 1);
    }
  }

  // --------------------------------------------------------- backward search

  /** These segments end at `e`, behind a double colon whose second colon is at `back`. */
  ghost predicate BackAt(s: string, e: nat, us: seq<string>, vs: seq<nat>, back: nat) {
    && LooseSegments(us, vs) && e <= |s| && (e == |s| || s[e] == ':')
    && 1 <= back && back + 1 + |Colons(us)| == e && s[back + 1..e] == Colons(us)
    && s[back] == ':' && s[back - 1] == ':'
  }

  lemma {:induction false} ColonsAppend(ts: seq<string>, t: string)
    requires ts != []
    ensures Colons(ts + [t]) == Colons(ts) + ":" + t
    decreases |ts|
  {
    var all := ts + [t];
    if |ts| == 1 {
      assert all[1..] == [t];
    } else {
      assert all[1..] == ts[1..] + [t];
      ColonsAppend(ts[1..], t);
      assert ts[0] + ":" + (Colons(ts[1..]) + ":" + t) == ts[0] + ":" + Colons(ts[1..]) + ":" + t;
    }
  }

  lemma {:induction false} LastColonIs(s: string, i: nat, c: nat)
    requires c < i <= |s| && s[c] == ':' && forall k | c < k < i :: s[k] != ':'
    ensures LastColon(s, i) == Some(c)
    decreases i
  {
    if s[i - 1] != ':' {
      LastColonIs(s, i - 1, c);
    }
  }

  lemma {:induction false} LastColonFree(s: string, i: nat)
    requires i <= |s| && LastColon(s, i).Some?
    ensures forall k | LastColon(s, i).value < k < i :: s[k] != ':'
    decreases i
  {
    if s[i - 1] != ':' {
      LastColonFree(s, i - 1);
    }
  }

  /** `i` is the end of a segment, or its last character. */
  ghost predicate SegmentEnd(s: string, i: nat, e: nat) {
    i <= e <= |s| && (e == |s| || s[e] == ':') && (i == e || (e == i + 1 && s[i] != ':'))
  }

  /** The last segment, and the ones before it. */
  lemma BackLast(s: string, e: nat, us: seq<string>, vs: seq<nat>, back: nat)
    requires BackAt(s, e, us, vs, back)
    ensures |us| == |vs| > 0
    ensures var n := |us| - 1;
            var c := e - |us[n]| - 1;
            && 1 <= c && s[c] == ':' && StandsAt(s, c + 1, us[n]) && WordAt(us[n], 0) == Some(vs[n])
            && (if n == 0 then c == back && s[c - 1] == ':'
                else s[c - 1] != ':' && IsXdigit(CharAt(us[n], 0)) && BackAt(s, c, us[..n], vs[..n], back))
  {
    hide WordAt, IsXdigit;
    var n := |us| - 1;
    var c := e - |us[n]| - 1;
    if n == 0 {
      assert Colons(us) == us[0];
    } else {
      var front, t := Colons(us[..n]), us[n];
      assert us == us[..n] + [t];
      ColonsAppend(us[..n], t);
      assert s[back + 1..e] == front + ":" + t;
      assert c == back + 1 + |front|;
      assert s[c + 1..e] == s[back + 1..e][|front| + 1..] == t;
      assert s[c] == s[back + 1..e][|front|];
      assert s[back + 1..c] == s[back + 1..e][..|front|] == front;
      ColonsEnd(us[..n], vs[..n]);
      assert s[c - 1] == s[back + 1..c][|front| - 1];
    }
  }

  lemma {:induction false} ColonsEnd(us: seq<string>, vs: seq<nat>)
    requires LooseSegments(us, vs) && us[0] != ""
    ensures Colons(us) != "" && Colons(us)[|Colons(us)| - 1] != ':'
  {
    hide WordAt, IsXdigit;
    NoDigit();
    var n := |us| - 1;
    var t := us[n];
    assert t != "" by { SegmentFull(us, vs, n); }
    if n == 0 {
      assert Colons(us) == t;
    } else {
      assert us == us[..n] + [t];
      ColonsAppend(us[..n], t);
      assert Colons(us)[|Colons(us)| - 1] == t[|t| - 1];
    }
  }

  lemma SegmentFull(us: seq<string>, vs: seq<nat>, k: nat)
    requires LooseSegments(us, vs) && us[0] != "" && k < |us|
    ensures us[k] != "" && ':' !in us[k]
  {
    if k > 0 {
      assert Segment(us[k], vs[k]);
      NoDigit();
    }
  }

  /** Such words are all found. */
  lemma {:induction false} BackwardFinds(s: string, i: nat, e: nat, us: seq<string>, vs: seq<nat>, back: nat, found: seq<nat>)
    requires SegmentEnd(s, i, e) && BackAt(s, e, us, vs, back) && |found| + |vs| <= 8
    requires i == e || us[|us| - 1] != ""
    ensures Backward(s, i, found) == Some((vs + found, back))
    decreases |us|
  {
    hide WordAt, IsXdigit, BackAt;
    BackLast(s, e, us, vs, back);
    var n := |us| - 1;
    var c := e - |us[n]| - 1;
    forall k | c < k < e
      ensures s[k] != ':'
    {
      assert s[k] == s[c + 1..e][k - c - 1];
    }
    LastColonIs(s, i, c);
    WordLocal(s, c + 1, us[n]);
    if n == 0 {
      assert [vs[0]] + found == vs + found;
    } else {
      BackLast(s, c, us[..n], vs[..n], back);
      assert us[..n][n - 1] != "" by { LastFull(s, c, us[..n], vs[..n], back); }
      BackwardFinds(s, c - 1, c, us[..n], vs[..n], back, [vs[n]] + found);
      assert vs[..n] + ([vs[n]] + found) == vs + found;
    }
  }

  /** No colon before the end: the last segment is not empty. */
  lemma LastFull(s: string, e: nat, us: seq<string>, vs: seq<nat>, back: nat)
    requires BackAt(s, e, us, vs, back) && s[e - 1] != ':'
    ensures us[|us| - 1] != ""
  {
    BackLast(s, e, us, vs, back);
  }

  lemma BackMore(s: string, c: nat, us: seq<string>, vs: seq<nat>, back: nat, t: string, w: nat)
    requires BackAt(s, c, us, vs, back) && c < |s| && s[c - 1] != ':' && StandsAt(s, c + 1, t) && Segment(t, w)
    ensures BackAt(s, c + 1 + |t|, us + [t], vs + [w], back)
  {
    hide WordAt, IsXdigit;
    LastFull(s, c, us, vs, back);
    ColonsAppend(us, t);
    var e := c + 1 + |t|;
    assert s[back + 1..e] == s[back + 1..c] + [s[c]] + s[c + 1..e];
    var all, ws := us + [t], vs + [w];
    forall k | 1 <= k < |all|
      ensures Segment(all[k], ws[k])
    {
      if k < |us| { assert all[k] == us[k] && ws[k] == vs[k]; }
    }
  }

  /** Nothing else is found. */
  lemma {:induction false} BackwardFound(s: string, i: nat, e: nat, found: seq<nat>) returns (us: seq<string>, vs: seq<nat>)
    requires SegmentEnd(s, i, e) && Backward(s, i, found).Some?
    ensures var r := Backward(s, i, found).value;
            BackAt(s, e, us, vs, r.1) && r.0 == vs + found && |found| + |vs| <= 8
    decreases i
  {
    hide WordAt, IsXdigit, BackAt;
    var c := LastColon(s, i).value;
    LastColonFree(s, i);
    var t, w := s[c + 1..e], WordAt(s, c + 1).value;
    SegmentStands(s, c + 1, e);
    WordLocal(s, c + 1, t);
    if s[c - 1] == ':' {
      us, vs := [t], [w];
      assert BackAt(s, e, us, vs, c) by { OneBack(s, e, c, w); }
    } else {
      us, vs := BackwardFound(s, c - 1, c, [w] + found);
      BackMore(s, c, us, vs, Backward(s, i, found).value.1, t, w);
      assert vs + ([w] + found) == vs + [w] + found;
      us, vs := us + [t], vs + [w];
    }
  }

  lemma OneBack(s: string, e: nat, c: nat, w: nat)
    requires 0 < c < e <= |s| && (e == |s| || s[e] == ':') && s[c] == ':' && s[c - 1] == ':'
    requires ':' !in s[c + 1..e] && WordAt(s[c + 1..e], 0) == Some(w)
    ensures BackAt(s, e, [s[c + 1..e]], [w], c)
  {
    hide WordAt;
  }

  // ----------------------------------------------------------------- parser

  /** Eight words; a double colon may follow, and anything behind it. */
  ghost predicate AllEight(s: string, w: seq<nat>) {
    |w| == 8 && exists ts, front :: FrontAt(s, 0, ts, w, front)
  }

  /** Fewer words, none perhaps, a double colon, and the words behind it, which are the last
      ones of the address; what is left between them is zero. */
  ghost predicate WithZeros(s: string, w: seq<nat>) {
    exists ts, ws, us, vs :: ZerosBetween(s, ts, ws, us, vs, w)
  }

  ghost predicate ZerosBetween(s: string, ts: seq<string>, ws: seq<nat>, us: seq<string>, vs: seq<nat>, w: seq<nat>) {
    && Segments(ts, ws) && |ws| < 8 && LooseSegments(us, vs) && |vs| <= 8
    && s == Colons(ts) + "::" + Colons(us)
    && |w| == 8
    && forall k | 0 <= k < 8 :: w[k] == if k >= 8 - |vs| then vs[k - (8 - |vs|)] else if k < |ws| then ws[k] else 0
  }

  lemma {:induction false} SegmentsStart(s: string, ts: seq<string>, ws: seq<nat>, front: Option<nat>)
    requires FrontAt(s, 0, ts, ws, front)
    ensures s != "" && s[0] != ':'
  {
    NoDigit();
    FrontFirst(s, 0, ts, ws, front);
    assert s[0] == s[0..|ts[0]|][0];
  }

  /** The search from the front, from the start of the text. */
  lemma ForwardExactly(s: string, ws: seq<nat>, front: Option<nat>)
    ensures Forward(s, 0, []) == Some((ws, front)) <==>
            || (ws == [] && Ended(s, 0, front))
            || (|ws| <= 8 && exists ts :: FrontAt(s, 0, ts, ws, front))
  {
    hide ForwardWord, FrontAt;
    forall ts | FrontAt(s, 0, ts, ws, front)
      ensures s != "" && s[0] != ':' && ws != []
    {
      SegmentsStart(s, ts, ws, front);
      FrontLength(s, 0, ts, ws, front);
    }
    if s != "" && s[0] != ':' {
      if Forward(s, 0, []) == Some((ws, front)) {
        var ts, vs := ForwardFound(s, 0, []);
        assert [] + vs == vs;
      }
      forall ts | |ws| <= 8 && FrontAt(s, 0, ts, ws, front)
        ensures Forward(s, 0, []) == Some((ws, front))
      {
        ForwardFinds(s, 0, ts, ws, front, []);
        assert [] + ws == ws;
      }
    }
  }

  /** The search from the back, from the end of the text. */
  lemma BackwardExactly(s: string, vs: seq<nat>, back: nat)
    ensures Backward(s, |s|, []) == Some((vs, back)) <==> |vs| <= 8 && exists us :: BackAt(s, |s|, us, vs, back)
  {
    hide BackAt;
    if Backward(s, |s|, []) == Some((vs, back)) {
      var us, ws := BackwardFound(s, |s|, |s|, []);
      assert ws + [] == ws;
    }
    forall us | |vs| <= 8 && BackAt(s, |s|, us, vs, back)
      ensures Backward(s, |s|, []) == Some((vs, back))
    {
      BackwardFinds(s, |s|, |s|, us, vs, back, []);
      assert vs + [] == vs;
    }
  }

  /** Two colons in a row stand only where the words end. */
  lemma {:induction false} NoDoubleColon(s: string, i: nat, ts: seq<string>, ws: seq<nat>, front: Option<nat>, k: nat)
    requires FrontAt(s, i, ts, ws, front) && i <= k && k + 1 < |s| && s[k] == ':' && s[k + 1] == ':'
    ensures front.Some? && k + 1 >= front.value
    decreases |ts|
  {
    hide WordAt, IsXdigit, FrontAt;
    NoDigit();
    FrontFirst(s, i, ts, ws, front);
    FrontLength(s, i, ts, ws, front);
    var e := i + |ts[0]|;
    forall j | i <= j < e
      ensures s[j] != ':'
    {
      assert s[j] == s[i..e][j - i];
    }
    if |ts| > 1 {
      FrontFirst(s, e + 1, ts[1..], ws[1..], front);
      assert s[e + 1] != ':' by { assert s[e + 1] == s[e + 1..e + 1 + |ts[1]|][0]; }
      NoDoubleColon(s, e + 1, ts[1..], ws[1..], front, k);
    }
  }

  /** Words from the front and words from the back meet at one double colon. */
  lemma Meet(s: string, ts: seq<string>, ws: seq<nat>, us: seq<string>, vs: seq<nat>, back: nat)
    ensures (FrontAt(s, 0, ts, ws, Some(back)) || (ts == [] && ws == [] && Ended(s, 0, Some(back))))
            && BackAt(s, |s|, us, vs, back)
            <==> Segments(ts, ws) && LooseSegments(us, vs) && s == Colons(ts) + "::" + Colons(us) && back == |Colons(ts)| + 1
  {
    hide WordAt, IsXdigit;
    var a, b := Colons(ts), Colons(us);
    if Segments(ts, ws) && LooseSegments(us, vs) && s == a + "::" + b && back == |a| + 1 {
      assert s[0..|a|] == a && s[back + 1..|s|] == b && s[back] == ':' && s[back - 1] == ':';
    }
    if (FrontAt(s, 0, ts, ws, Some(back)) || (ts == [] && ws == [] && Ended(s, 0, Some(back)))) && BackAt(s, |s|, us, vs, back) {
      assert back == |a| + 1;
      assert s == s[0..|a|] + [s[|a|]] + [s[|a| + 1]] + s[|a| + 2..|s|];
    }
  }

  lemma FillIs(ws: seq<nat>, vs: seq<nat>, w: seq<nat>)
    requires |ws| <= 8 && |vs| <= 8
    ensures w == Fill(ws, vs) <==>
            && |w| == 8
            && forall k | 0 <= k < 8 :: w[k] == if k >= 8 - |vs| then vs[k - (8 - |vs|)] else if k < |ws| then ws[k] else 0
  {
  }

  /** A text is taken for an address exactly when it has fewer than forty characters and is eight
      words between colons, or fewer with one double colon for the zeros. */
  lemma AtonExactly(s: string, w: seq<nat>)
    ensures AtonWords(s) == Some(w) <==> |s| < 40 && (AllEight(s, w) || WithZeros(s, w))
  {
    hide Forward, Backward, Fill, Segments, LooseSegments, FrontAt, BackAt;
    if AtonWords(s) == Some(w) {
      var (ws, front) := Forward(s, 0, []).value;
      ForwardExactly(s, ws, front);
      if |ws| < 8 {
        var (vs, back) := Backward(s, |s|, []).value;
        BackwardExactly(s, vs, back);
        var ts, us := Zeros(s, ws, front, vs, back);
        FillIs(ws, vs, w);
        assert ZerosBetween(s, ts, ws, us, vs, w);
      }
    }
    if |s| < 40 && AllEight(s, w) {
      var ts, front :| FrontAt(s, 0, ts, w, front);
      ForwardExactly(s, w, front);
    }
    if |s| < 40 && WithZeros(s, w) {
      var ts, ws, us, vs :| ZerosBetween(s, ts, ws, us, vs, w);
      ZerosFound(s, ts, ws, us, vs, w);
    }
  }

  lemma ZerosFound(s: string, ts: seq<string>, ws: seq<nat>, us: seq<string>, vs: seq<nat>, w: seq<nat>)
    requires ZerosBetween(s, ts, ws, us, vs, w) && |s| < 40
    ensures AtonWords(s) == Some(w)
  {
    hide Forward, Backward, Fill, Segments, LooseSegments, FrontAt, BackAt, Ended;
    var back := |Colons(ts)| + 1;
    Meet(s, ts, ws, us, vs, back);
    ForwardExactly(s, ws, Some(back));
    BackwardExactly(s, vs, back);
    FillIs(ws, vs, w);
    assert Forward(s, 0, []) == Some((ws, Some(back)));
    assert Backward(s, |s|, []) == Some((vs, back));
  }

  lemma Zeros(s: string, ws: seq<nat>, front: Option<nat>, vs: seq<nat>, back: nat) returns (ts: seq<string>, us: seq<string>)
    requires Forward(s, 0, []) == Some((ws, front)) && |ws| < 8 && Backward(s, |s|, []) == Some((vs, back))
    requires front.Some? ==> front.value == back
    ensures Segments(ts, ws) && LooseSegments(us, vs) && s == Colons(ts) + "::" + Colons(us) && |vs| <= 8
  {
    hide Forward, Backward, Segments, LooseSegments, FrontAt, BackAt, Ended, Colons;
    ForwardExactly(s, ws, front);
    BackwardExactly(s, vs, back);
    us :| BackAt(s, |s|, us, vs, back);
    BackColons(s, us, vs, back);
    if ws == [] && Ended(s, 0, front) {
      ts := [];
      EndedHere(s, front);
    } else {
      ts :| FrontAt(s, 0, ts, ws, front);
      NoDoubleColon(s, 0, ts, ws, front, back - 1);
    }
    assert front == Some(back);
    Meet(s, ts, ws, us, vs, back);
  }

  lemma EndedHere(s: string, front: Option<nat>)
    requires Ended(s, 0, front)
    ensures front.None? ==> s == ""
  {
  }

  lemma BackColons(s: string, us: seq<string>, vs: seq<nat>, back: nat)
    requires BackAt(s, |s|, us, vs, back)
    ensures 1 <= back < |s| && s[back - 1] == ':' && s[back] == ':'
  {
  }
}
