/** IPv6 addresses as text: the printer, and the parser that searches for words from both
    ends of the string. */
module AddrText {
  import opened Bytes

  const WORD16_LEN := 8
  const TEXT_HIGH := 40

  // ----------------------------------------------------------------- printer

  function HexDigit(d: nat): char
    requires d < 16
  {
    if d < 10 then '0' + d as char else 'a' + (d - 10) as char
  }

  /** The digits the format `%x` gives. */
  function Hex(w: nat): (s: string)
    ensures |s| >= 1
  {
    if w < 16 then [HexDigit(w)] else Hex(w / 16) + [HexDigit(w % 16)]
  }

  /** Words with a colon between them. */
  function Join(ws: seq<nat>): string {
    if ws == [] then "" else if |ws| == 1 then Hex(ws[0]) else Hex(ws[0]) + ":" + Join(ws[1..])
  }

  function Words(o: seq<byte>): (ws: seq<nat>)
    requires |o| % 2 == 0
    ensures |ws| == |o| / 2 && forall k | 0 <= k < |ws| :: ws[k] == Pack2(o[2 * k], o[2 * k + 1]) < 0x1_0000
  {
    seq(|o| / 2, k requires 0 <= k < |o| / 2 => Pack2(o[2 * k], o[2 * k + 1]))
  }

  function Print(o: seq<byte>): string
    requires |o| == 16
  {
    Join(Words(o))
  }

  function Sep(k: nat): string {
    if k == 0 then "" else ":"
  }

  lemma {:induction false} JoinConcat(a: seq<nat>, b: seq<nat>)
    requires a != [] && b != []
    ensures Join(a + b) == Join(a) + ":" + Join(b)
  {
    assert (a + b)[0] == a[0];
    if |a| == 1 {
      assert (a + b)[1..] == b;
    } else {
      assert (a + b)[1..] == a[1..] + b;
      JoinConcat(a[1..], b);
    }
  }

  lemma JoinStep(ws: seq<nat>, k: nat)
    requires k < |ws|
    ensures Join(ws[..k + 1]) == Join(ws[..k]) + Sep(k) + Hex(ws[k])
  {
    assert ws[..k + 1] == ws[..k] + [ws[k]];
    if k > 0 {
      JoinConcat(ws[..k], [ws[k]]);
      assert Join([ws[k]]) == Hex(ws[k]);
    }
  }

  lemma JoinPrefix(ws: seq<nat>, k: nat)
    requires k < |ws|
    ensures Join(ws[..k + 1]) <= Join(ws)
  {
    hide Join;
    if k + 1 < |ws| {
      assert ws == ws[..k + 1] + ws[k + 1..];
      JoinConcat(ws[..k + 1], ws[k + 1..]);
    } else {
      assert ws[..k + 1] == ws;
    }
  }

  lemma HexLength(w: nat)
    requires w < 0x1_0000
    ensures |Hex(w)| <= 4
  {
    var a := w / 16;
    var b := a / 16;
    var c := b / 16;
    assert c < 16 && |Hex(c)| == 1;
    assert |Hex(b)| <= 2;
    assert |Hex(a)| <= 3;
  }

  lemma {:induction false} JoinLength(ws: seq<nat>)
    requires forall k | 0 <= k < |ws| :: ws[k] < 0x1_0000
    ensures |Join(ws)| <= 5 * |ws|
    ensures ws != [] ==> |Join(ws)| <= 5 * |ws| - 1
  {
    if ws != [] {
      HexLength(ws[0]);
      JoinLength(ws[1..]);
    }
  }

  /** The text of an address has at most 39 characters. */
  lemma PrintFits(o: seq<byte>)
    requires |o| == 16
    ensures |Print(o)| < TEXT_HIGH
  {
    JoinLength(Words(o));
  }

  /** What `snprintf` does with the rest of a buffer: it cuts the text, ends it, and returns
      the length the text would have had. */
  method Snprint(buf: array<char>, at: nat, s: string) returns (w: nat)
    requires at < buf.Length
    modifies buf
    ensures w == |s| && buf[..at] == old(buf[..at])
    ensures at + |s| < buf.Length ==> buf[..at + |s|] == old(buf[..at]) + s && buf[at + |s|] == '\0'
    ensures at + |s| >= buf.Length ==>
              buf[..buf.Length - 1] == old(buf[..at]) + s[..buf.Length - 1 - at] && buf[buf.Length - 1] == '\0'
  {
    var n := if at + |s| < buf.Length then |s| else buf.Length - 1 - at;
    forall k | 0 <= k < n {
      buf[at + k] := s[k];
    }
    buf[at + n] := '\0';
    assert buf[at..at + n] == s[..n];
    assert buf[..at + n] == buf[..at] + buf[at..at + n];
    w := |s|;
  }

  /** The text is written as far as it fits; the result tells whether it was cut. */
  method Inet6Snprintf(buf: array<char>, o: seq<byte>) returns (wr: nat)
    requires |o| == 16 && buf.Length > 0
    modifies buf
    ensures wr < buf.Length <==> |Print(o)| < buf.Length
    ensures wr < buf.Length ==> wr == |Print(o)| && buf[..wr] == Print(o) && buf[wr] == '\0'
    ensures wr >= buf.Length ==> buf[..buf.Length - 1] == Print(o)[..buf.Length - 1] && buf[buf.Length - 1] == '\0'
  {
    hide Join, Hex, Words;
    wr := 0;
    ghost var ws := Words(o);
    assert ws[..0] == [];
    JoinNone();
    for k := 0 to 8
      invariant wr == |Join(ws[..k])| < buf.Length && buf[..wr] == Join(ws[..k])
      invariant k > 0 ==> buf[wr] == '\0'
    {
      JoinStep(ws, k);
      JoinPrefix(ws, k);
      var sum: nat := o[2 * k];
      if k > 0 {
        var c := Snprint(buf, wr, ":");
        wr := wr + c;
        if wr >= buf.Length {
          return;
        }
      }
      sum := 0x100 * sum + o[2 * k + 1];
      assert sum <= 0xFFFF;
      var w := Snprint(buf, wr, Hex(sum));
      wr := wr + w;
      if wr >= buf.Length {
        return;
      }
    }
    assert ws[..8] == ws;
  }

  lemma JoinNone()
    ensures Join([]) == ""
  {
  }

  // ------------------------------------------------------------------ strtol

  function CharAt(s: string, i: nat): char {
    if i < |s| then s[i] else '\0'
  }

  function DigitOf(c: char): Option<nat> {
    if '0' <= c <= '9' then Some((c - '0') as nat)
    else if 'a' <= c <= 'f' then Some((c - 'a') as nat + 10)
    else if 'A' <= c <= 'F' then Some((c - 'A') as nat + 10)
    else None
  }

  predicate IsXdigit(c: char) {
    DigitOf(c).Some?
  }

  predicate IsSpace(c: char) {
    c == ' ' || '\t' <= c <= '\r'
  }

  function SkipSpace(s: string, i: nat): nat
    decreases |s| - i
  {
    if IsSpace(CharAt(s, i)) then SkipSpace(s, i + 1) else i
  }

  function DigitsEnd(s: string, i: nat): (e: nat)
    ensures i <= e && (i < e ==> e <= |s|) && forall k | i <= k < e :: k < |s| && IsXdigit(s[k])
    decreases |s| - i
  {
    if IsXdigit(CharAt(s, i)) then DigitsEnd(s, i + 1) else i
  }

  function Value(s: string, i: nat, e: nat): nat
    requires i <= e <= |s| && forall k | i <= k < e :: IsXdigit(s[k])
    decreases e
  {
    if i == e then 0 else
      assert IsXdigit(s[e - 1]);
      16 * Value(s, i, e - 1) + DigitOf(s[e - 1]).value
  }

  const LONG_MAX := 0x7FFF_FFFF_FFFF_FFFF

  /** `strtol` in base 16: blanks, a sign, an optional `0x`, digits. Nothing is returned when
      the number is out of range. */
  function Strtol(s: string, i: nat): Option<int> {
    var p := SkipSpace(s, i);
    var negative := CharAt(s, p) == '-';
    var q := if negative || CharAt(s, p) == '+' then p + 1 else p;
    var b := if CharAt(s, q) == '0' && (CharAt(s, q + 1) == 'x' || CharAt(s, q + 1) == 'X') && IsXdigit(CharAt(s, q + 2))
             then q + 2 else q;
    var e := DigitsEnd(s, b);
    if b == e then Some(0)
    else
      var v: int := Value(s, b, e);
      if v > LONG_MAX + (if negative then 1 else 0) then None else Some(if negative then -v else v)
  }

  /** A word of the address, if the number at `i` is one. */
  function WordAt(s: string, i: nat): Option<nat> {
    match Strtol(s, i)
    case None => None
    case Some(w) => if 0 <= w <= 0xFFFF then Some(w) else None
  }

  /** `post` begins with a colon, or there is nothing after the digits. */
  predicate Stops(post: string) {
    post == "" || post[0] == ':'
  }

  lemma DigitBack(d: nat)
    requires d < 16
    ensures DigitOf(HexDigit(d)) == Some(d)
  {
  }

  lemma {:induction false} HexDigits(w: nat)
    ensures forall k | 0 <= k < |Hex(w)| :: IsXdigit(Hex(w)[k])
    ensures Value(Hex(w), 0, |Hex(w)|) == w
  {
    hide DigitOf, HexDigit;
    DigitBack(w % 16);
    if w >= 16 {
      HexDigits(w / 16);
      var s, d := Hex(w / 16), [HexDigit(w % 16)];
      ValueShift("", s, d, |s|);
      assert "" + s + d == Hex(w);
    } else {
      assert Value(Hex(w), 0, 0) == 0;
    }
  }

  /** The value of digits depends on the digits only. */
  lemma {:induction false} ValueShift(pre: string, s: string, post: string, n: nat)
    requires n <= |s| && forall k | 0 <= k < n :: IsXdigit(s[k])
    ensures forall k | |pre| <= k < |pre| + n :: IsXdigit((pre + s + post)[k])
    ensures Value(pre + s + post, |pre|, |pre| + n) == Value(s, 0, n)
  {
    var m := pre + s + post;
    assert forall k | 0 <= k < n :: m[|pre| + k] == s[k];
    if n > 0 {
      ValueShift(pre, s, post, n - 1);
    }
  }

  lemma {:induction false} DigitsEndAt(s: string, i: nat, e: nat)
    requires i <= e <= |s| && (forall k | i <= k < e :: IsXdigit(s[k])) && !IsXdigit(CharAt(s, e))
    ensures DigitsEnd(s, i) == e
    decreases e - i
  {
    if i < e {
      DigitsEndAt(s, i + 1, e);
    }
  }

  /** A number that begins with a digit and ends before something that is not one. */
  lemma StrtolDigits(s: string, i: nat, e: nat)
    requires i < e <= |s| && (forall k | i <= k < e :: IsXdigit(s[k]))
    requires !IsXdigit(CharAt(s, e)) && CharAt(s, e) != 'x' && CharAt(s, e) != 'X'
    ensures Strtol(s, i) == if Value(s, i, e) > LONG_MAX then None else Some(Value(s, i, e))
  {
    hide Value;
    DigitsEndAt(s, i, e);
    assert IsXdigit(s[i]) && !IsSpace(s[i]);
    assert i + 1 < e ==> IsXdigit(s[i + 1]);
  }

  /** A printed word is read back, when a colon or the end of the string follows. */
  lemma WordReads(pre: string, w: nat, post: string)
    requires w < 0x1_0000 && Stops(post)
    ensures WordAt(pre + Hex(w) + post, |pre|) == Some(w)
    ensures IsXdigit(CharAt(pre + Hex(w) + post, |pre|))
  {
    hide Strtol, Value, Hex;
    var h, i := Hex(w), |pre|;
    var s := pre + h + post;
    HexDigits(w);
    ValueShift(pre, h, post, |h|);
    assert IsXdigit(s[i]);
    assert CharAt(s, i + |h|) == if post == "" then '\0' else ':';
    StrtolDigits(s, i, i + |h|);
  }

  // ---------------------------------------------------------- forward search

  /** The next colon, from `i` on. */
  function NextColon(s: string, i: nat): (r: Option<nat>)
    ensures r.Some? ==> i <= r.value < |s| && s[r.value] == ':'
    decreases |s| - i
  {
    if i >= |s| then None else if s[i] == ':' then Some(i) else NextColon(s, i + 1)
  }

  /** From a colon or the first word: the words up to a double colon or to the end, and the
      position of the second one of two colons. */
  function Forward(s: string, i: nat, ws: seq<nat>): Option<(seq<nat>, Option<nat>)>
    decreases |s| - i, 1
  {
    if i >= |s| then Some((ws, None))
    else if s[i] != ':' then ForwardWord(s, i, ws)
    else if CharAt(s, i + 1) == ':' then Some((ws, Some(i + 1)))
    else if ws == [] then None
    else ForwardWord(s, i + 1, ws)
  }

  function ForwardWord(s: string, i: nat, ws: seq<nat>): Option<(seq<nat>, Option<nat>)>
    decreases |s| - i, 0
  {
    if |ws| >= WORD16_LEN || !IsXdigit(CharAt(s, i)) || WordAt(s, i).None? then None
    else
      var next := NextColon(s, i);
      if next.None? then Some((ws + [WordAt(s, i).value], None))
      else Forward(s, next.value, ws + [WordAt(s, i).value])
  }

  lemma {:induction false} NextColonSkips(s: string, i: nat, e: nat)
    requires i <= e <= |s| && forall k | i <= k < e :: s[k] != ':'
    ensures NextColon(s, i) == NextColon(s, e)
    decreases e - i
  {
    if i < e {
      NextColonSkips(s, i + 1, e);
    }
  }

  lemma WordColon(pre: string, w: nat, post: string)
    requires Stops(post)
    ensures NextColon(pre + Hex(w) + post, |pre|) == if post == "" then None else Some(|pre + Hex(w)|)
  {
    var h := Hex(w);
    var s := pre + h + post;
    HexDigits(w);
    forall k | |pre| <= k < |pre| + |h|
      ensures s[k] != ':'
    {
      assert s[k] == h[k - |pre|] && IsXdigit(h[k - |pre|]);
    }
    NextColonSkips(s, |pre|, |pre| + |h|);
  }

  lemma ForwardStep(pre: string, w: nat, post: string, found: seq<nat>)
    requires w < 0x1_0000 && Stops(post) && |found| < WORD16_LEN
    ensures var s := pre + Hex(w) + post;
            ForwardWord(s, |pre|, found)
            == if post == "" then Some((found + [w], None)) else Forward(s, |pre + Hex(w)|, found + [w])
  {
    hide WordAt, NextColon, Hex, Forward;
    WordReads(pre, w, post);
    WordColon(pre, w, post);
  }

  /** Joined words are all found, and the search goes on behind them. */
  lemma {:induction false} ForwardJoin(pre: string, ws: seq<nat>, post: string, found: seq<nat>)
    requires ws != [] && WordsOk(ws) && |found| + |ws| <= WORD16_LEN && Stops(post)
    ensures var s := pre + Join(ws) + post;
            ForwardWord(s, |pre|, found)
            == if post == "" then Some((found + ws, None)) else Forward(s, |pre + Join(ws)|, found + ws)
    decreases |ws|
  {
    hide Hex, ForwardWord;
    var h := Hex(ws[0]);
    if |ws| == 1 {
      ForwardStep(pre, ws[0], post, found);
      assert found + [ws[0]] == found + ws;
    } else {
      var rest, pre' := Join(ws[1..]), pre + h + ":";
      var s := pre + Join(ws) + post;
      ForwardStep(pre, ws[0], ":" + rest + post, found);
      ForwardJoin(pre', ws[1..], post, found + [ws[0]]);
      JoinStarts(ws[1..]);
      assert s == pre + h + (":" + rest + post) == pre' + rest + post by { JoinTwo(ws, pre, post); }
      assert found + [ws[0]] + ws[1..] == found + ws;
      assert s[|pre + h|] == ':' && s[|pre + h| + 1] == rest[0];
      assert |pre' + rest| == |pre + Join(ws)|;
    }
  }

  lemma JoinTwo(ws: seq<nat>, pre: string, post: string)
    requires |ws| > 1
    ensures var h, rest := Hex(ws[0]), Join(ws[1..]);
            pre + Join(ws) + post == pre + h + (":" + rest + post) == pre + h + ":" + rest + post
  {
    hide Hex;
    Regroup(pre, Hex(ws[0]), ":", Join(ws[1..]), post);
  }

  lemma Regroup(pre: string, x: string, c: string, y: string, post: string)
    ensures pre + (x + c + y) + post == pre + x + (c + y + post)
    ensures pre + (x + c + y) + post == pre + x + c + y + post
    ensures pre + (x + c + y) + post == pre + x + (c + y) + post
  {
    assert pre + (x + c + y) == pre + x + c + y == pre + x + (c + y);
    assert pre + x + (c + y + post) == pre + x + (c + y) + post;
  }

  lemma JoinStarts(ws: seq<nat>)
    requires ws != []
    ensures Join(ws) != "" && IsXdigit(Join(ws)[0])
  {
    HexDigits(ws[0]);
    assert Join(ws)[0] == Hex(ws[0])[0];
  }

  // --------------------------------------------------------- backward search

  /** The last colon before `i`. */
  function LastColon(s: string, i: nat): (r: Option<nat>)
    requires i <= |s|
    ensures r.Some? ==> r.value < i && s[r.value] == ':'
  {
    if i == 0 then None else if s[i - 1] == ':' then Some(i - 1) else LastColon(s, i - 1)
  }

  /** The words behind a double colon, last one first, and the position of its second colon. */
  function Backward(s: string, i: nat, ws: seq<nat>): (r: Option<(seq<nat>, nat)>)
    requires i <= |s|
    ensures r.Some? ==> |ws| < |r.value.0| <= WORD16_LEN
    decreases i
  {
    if i == 0 || LastColon(s, i).None? then None
    else
      var c := LastColon(s, i).value;
      if |ws| >= WORD16_LEN || WordAt(s, c + 1).None? then None
      else
        var found := [WordAt(s, c + 1).value] + ws;
        if c > 0 && s[c - 1] == ':' then Some((found, c))
        else if !IsXdigit(CharAt(s, c + 1)) || c == 0 then None
        else Backward(s, c - 1, found)
  }

  // ----------------------------------------------------------------- parser

  /** The words found from the front, then zeros, then those found from the back. */
  function Fill(ws: seq<nat>, vs: seq<nat>): (r: seq<nat>)
    requires |ws| <= WORD16_LEN && |vs| <= WORD16_LEN
    ensures |r| == WORD16_LEN
  {
    seq(WORD16_LEN, k requires 0 <= k < WORD16_LEN =>
      if k >= WORD16_LEN - |vs| then vs[k - (WORD16_LEN - |vs|)] else if k < |ws| then ws[k] else 0)
  }

  ghost predicate WordsOk(ws: seq<nat>) {
    forall k | 0 <= k < |ws| :: ws[k] < 0x1_0000
  }

  /** The address as eight words. */
  function AtonWords(s: string): Option<seq<nat>> {
    if |s| >= TEXT_HIGH then None
    else
      match Forward(s, 0, [])
      case None => None
      case Some((ws, front)) =>
        if |ws| >= WORD16_LEN then Some(ws)
        else
          match Backward(s, |s|, [])
          case None => None
          case Some((vs, back)) =>
            if front.Some? && front.value != back then None else Some(Fill(ws, vs))
  }

  function Octets(ws: seq<nat>): (o: seq<byte>)
    requires forall k | 0 <= k < |ws| :: ws[k] < 0x1_0000
    ensures |o| == 2 * |ws|
  {
    if ws == [] then [] else Unpack2(ws[0]) + Octets(ws[1..])
  }

  lemma WordsTail(o: seq<byte>)
    requires |o| % 2 == 0 && o != []
    ensures Words(o)[1..] == Words(o[2..])
  {
    hide Pack2;
    forall k | 0 <= k < |o| / 2 - 1
      ensures Words(o)[1..][k] == Words(o[2..])[k]
    {
      assert o[2..][2 * k] == o[2 * (k + 1)] && o[2..][2 * k + 1] == o[2 * (k + 1) + 1];
    }
  }

  lemma {:induction false} OctetsWords(o: seq<byte>)
    requires |o| % 2 == 0
    ensures Octets(Words(o)) == o
    decreases |o|
  {
    hide Pack2, Unpack2, Words;
    if o != [] {
      PackUnpack(0, 0, o[0], o[1], 0, 0);
      var ws := Words(o);
      assert ws[0] == Pack2(o[0], o[1]);
      OctetsWords(o[2..]);
      WordsTail(o);
      assert o == [o[0], o[1]] + o[2..];
    }
  }

  /** Printing an address and parsing the text gives the address back. */
  lemma PrintParse(o: seq<byte>)
    requires |o| == 16
    ensures AtonWords(Print(o)) == Some(Words(o)) && Octets(Words(o)) == o
  {
    hide Join, Words, ForwardWord, Hex, Octets, Backward;
    var ws := Words(o);
    PrintFits(o);
    ForwardJoin("", ws, "", []);
    JoinStarts(ws);
    assert "" + Join(ws) + "" == Join(ws) && [] + ws == ws;
    assert Forward(Print(o), 0, []) == ForwardWord(Print(o), 0, []);
    OctetsWords(o);
  }

  // ------------------------------------------------------------ double colon

  lemma {:induction false} LastColonSkips(s: string, i: nat, e: nat)
    requires i <= e <= |s| && forall k | i <= k < e :: s[k] != ':'
    ensures LastColon(s, e) == LastColon(s, i)
    decreases e
  {
    if i < e {
      LastColonSkips(s, i, e - 1);
    }
  }

  /** One word, behind a colon: the backward search reads it and goes on before the colon. */
  lemma BackwardWord(pre: string, w: nat, post: string, i: nat, found: seq<nat>)
    requires w < 0x1_0000 && Stops(post) && |found| < WORD16_LEN && pre != "" && pre[|pre| - 1] == ':'
    requires |pre| <= i <= |pre + Hex(w)|
    ensures var s, c := pre + Hex(w) + post, |pre| - 1;
            && s[c] == ':' && IsXdigit(CharAt(s, c + 1))
            && Backward(s, i, found)
               == if c > 0 && s[c - 1] == ':' then Some(([w] + found, c))
                  else if c == 0 then None else Backward(s, c - 1, [w] + found)
  {
    hide WordAt;
    var h := Hex(w);
    var s := pre + h + post;
    HexDigits(w);
    forall k | |pre| <= k < i
      ensures s[k] != ':'
    {
      assert s[k] == h[k - |pre|] && IsXdigit(h[k - |pre|]);
    }
    assert s[|pre| - 1] == ':';
    LastColonSkips(s, |pre|, i);
    WordReads(pre, w, post);
  }

  /** All words behind a double colon are found. */
  lemma {:induction false} BackwardJoin(pre: string, ws: seq<nat>, post: string, i: nat, found: seq<nat>)
    requires ws != [] && WordsOk(ws) && |found| + |ws| <= WORD16_LEN && Stops(post)
    requires |pre| >= 2 && pre[|pre| - 1] == ':' && pre[|pre| - 2] == ':'
    requires i == |pre + Join(ws)| || i + 1 == |pre + Join(ws)|
    ensures var s := pre + Join(ws) + post;
            i <= |s| && Backward(s, i, found) == Some((ws + found, |pre| - 1))
    decreases |ws|
  {
    hide Hex, Backward;
    var n := |ws| - 1;
    JoinStarts(ws);
    if n == 0 {
      BackwardWord(pre, ws[0], post, i, found);
      assert [ws[0]] + found == ws + found;
    } else {
      var front, h := Join(ws[..n]), Hex(ws[n]);
      JoinLast(ws, pre, post);
      var pre', s := pre + front + ":", pre + Join(ws) + post;
      JoinStarts(ws[..n]);
      JoinEnds(ws[..n]);
      assert pre'[|pre'| - 1] == ':' && pre'[|pre'| - 2] == front[|front| - 1];
      assert s[|pre'| - 2] == pre'[|pre'| - 2];
      BackwardWord(pre', ws[n], post, i, found);
      BackwardJoin(pre, ws[..n], ":" + h + post, |pre'| - 2, [ws[n]] + found);
      assert ws[..n] + ([ws[n]] + found) == ws + found;
    }
  }

  lemma JoinLast(ws: seq<nat>, pre: string, post: string)
    requires |ws| > 1
    ensures var front, h := Join(ws[..|ws| - 1]), Hex(ws[|ws| - 1]);
            && pre + Join(ws) + post == pre + front + ":" + h + post == pre + front + (":" + h + post)
            && |pre + Join(ws)| == |pre + front + ":" + h|
  {
    hide Hex;
    var n := |ws| - 1;
    assert ws == ws[..n] + [ws[n]];
    JoinConcat(ws[..n], [ws[n]]);
  }

  lemma {:induction false} JoinEnds(ws: seq<nat>)
    requires ws != []
    ensures Join(ws) != "" && Join(ws)[|Join(ws)| - 1] != ':'
  {
    if |ws| == 1 {
      HexDigits(ws[0]);
      assert IsXdigit(Hex(ws[0])[|Hex(ws[0])| - 1]);
    } else {
      JoinEnds(ws[1..]);
    }
  }

  /** A double colon stands for the zeros between the words before and after it, wherever it
      is and however many words it replaces. */
  lemma DoubleColon(a: seq<nat>, b: seq<nat>)
    requires WordsOk(a) && WordsOk(b) && |a| + |b| < WORD16_LEN
    ensures AtonWords(Join(a) + "::" + Join(b)) == Some(Fill(a, b))
  {
    hide Join, Forward, ForwardWord, Backward;
    var s := Join(a) + "::" + Join(b);
    JoinLength(a);
    JoinLength(b);
    FrontOf(a, b);
    BackOf(a, b);
    if b == [] {
      assert Fill(a, [0]) == Fill(a, []);
    }
  }

  lemma FrontOf(a: seq<nat>, b: seq<nat>)
    requires WordsOk(a) && |a| < WORD16_LEN
    ensures Forward(Join(a) + "::" + Join(b), 0, []) == Some((a, Some(|Join(a)| + 1)))
  {
    hide WordAt, Hex, Join, ForwardWord;
    var s, post := Join(a) + "::" + Join(b), "::" + Join(b);
    assert s == "" + Join(a) + post;
    if a == [] {
      JoinNone();
      assert s[0] == ':' && s[1] == ':';
    } else {
      JoinStarts(a);
      ForwardJoin("", a, post, []);
      assert [] + a == a && "" + Join(a) == Join(a);
      AtDoubleColon(s, |Join(a)|, a);
      assert s[0] == Join(a)[0];
    }
  }

  lemma AtDoubleColon(s: string, i: nat, ws: seq<nat>)
    requires i + 1 < |s| && s[i] == ':' && s[i + 1] == ':'
    ensures Forward(s, i, ws) == Some((ws, Some(i + 1)))
  {
  }

  lemma BackOf(a: seq<nat>, b: seq<nat>)
    requires WordsOk(b) && |b| < WORD16_LEN
    ensures var s := Join(a) + "::" + Join(b);
            Backward(s, |s|, []) == Some((if b == [] then [0] else b, |Join(a)| + 1))
  {
    var s, pre := Join(a) + "::" + Join(b), Join(a) + "::";
    if b == [] {
      assert s == pre && s[|s| - 1] == ':' && s[|s| - 2] == ':';
      assert Strtol(s, |s|) == Some(0);
      var none: seq<nat> := [];
      assert [0] + none == [0];
      assert Backward(s, |s|, none) == Some(([0] + none, |s| - 1));
    } else {
      assert s == pre + Join(b) + "";
      BackwardJoin(pre, b, "", |s|, []);
      assert b + [] == b;
    }
  }

  // --------------------------------------------------------------- the loops

  method SearchForward(s: string) returns (r: Option<(seq<nat>, Option<nat>)>)
    ensures r == Forward(s, 0, [])
  {
    hide WordAt, NextColon;
    var i := 0;
    var ws: seq<nat> := [];
    while i < |s|
      invariant i <= |s| && Forward(s, 0, []) == Forward(s, i, ws)
      decreases |s| - i
    {
      var j := i;
      if s[i] == ':' {
        j := i + 1;
        if CharAt(s, j) == ':' {
          return Some((ws, Some(j)));
        }
        if ws == [] {
          return None;
        }
      }
      if |ws| >= WORD16_LEN || !IsXdigit(CharAt(s, j)) {
        return None;
      }
      var w := WordAt(s, j);
      if w.None? {
        return None;
      }
      ws := ws + [w.value];
      var next := NextColon(s, j);
      if next.None? {
        return Some((ws, None));
      }
      i := next.value;
    }
    r := Some((ws, None));
  }

  method SearchBackward(s: string) returns (r: Option<(seq<nat>, nat)>)
    ensures r == Backward(s, |s|, [])
  {
    hide WordAt;
    var i: nat := |s|;
    var ws: seq<nat> := [];
    while i > 0
      invariant i <= |s| && Backward(s, |s|, []) == Backward(s, i, ws)
    {
      var colon := Memrchr(s, ':', i);
      LastColonIs(s, i, colon);
      if colon.None? {
        return None;
      }
      var c := colon.value;
      if |ws| >= WORD16_LEN {
        return None;
      }
      var w := WordAt(s, c + 1);
      if w.None? {
        return None;
      }
      ws := [w.value] + ws;
      if c > 0 && s[c - 1] == ':' {
        return Some((ws, c));
      }
      if !IsXdigit(CharAt(s, c + 1)) || c == 0 {
        return None;
      }
      i := c - 1;
    }
    r := None;
  }

  lemma LastColonIs(s: string, i: nat, r: Option<nat>)
    requires i <= |s|
    requires r.None? ==> ':' !in s[..i]
    requires r.Some? ==> r.value < i && s[r.value] == ':' && ':' !in s[r.value + 1..i]
    ensures LastColon(s, i) == r
  {
    var from := if r.None? then 0 else r.value + 1;
    forall k | from <= k < i
      ensures s[k] != ':'
    {
      assert s[from..i][k - from] == s[k];
    }
    LastColonSkips(s, from, i);
  }

  method Inet6Aton(s: string) returns (r: Option<seq<nat>>)
    ensures r == AtonWords(s)
  {
    hide Forward, Backward;
    if |s| >= TEXT_HIGH {
      return None;
    }
    var front := SearchForward(s);
    if front.None? {
      return None;
    }
    var (ws, wildcard) := front.value;
    if |ws| >= WORD16_LEN {
      return Some(ws);
    }
    var back := SearchBackward(s);
    if back.None? {
      return None;
    }
    if wildcard.Some? && wildcard.value != back.value.1 {
      return None;
    }
    r := Some(Fill(ws, back.value.0));
  }
}
