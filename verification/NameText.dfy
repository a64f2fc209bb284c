/** The text form of names: encoding, its limits, and joining two encoded names. */
module NameText {
  import opened Bytes
  import opened Limits
  import opened Names

  predicate EndsWithDot(t: seq<byte>) {
    t != [] && t[|t| - 1] == DOT
  }

  /** One trailing dot is ignored. */
  function Strip(t: seq<byte>): seq<byte> {
    if EndsWithDot(t) then t[..|t| - 1] else t
  }

  function FirstDot(s: seq<byte>): (i: nat)
    ensures i <= |s| && DOT !in s[..i] && (i < |s| ==> s[i] == DOT)
  {
    if s == [] || s[0] == DOT then 0 else FirstDot(s[1..]) + 1
  }

  /** What follows the first label and its dot. */
  function AfterLabel(s: seq<byte>): seq<byte>
    requires s != []
  {
    var i := FirstDot(s);
    if i + 1 < |s| then s[i + 1..] else []
  }

  /** The labels between the dots; an empty label is refused, except after a final dot. */
  function Split(s: seq<byte>): (r: Option<seq<Label>>)
    ensures r.Some? ==> LabelsOk(r.value)
    decreases |s|
  {
    if s == [] then Some([])
    else if 1 <= FirstDot(s) <= LABEL_HIGH then Prefixed([s[..FirstDot(s)]], Split(AfterLabel(s)))
    else None
  }

  function Encode(t: seq<byte>, size: nat): Option<seq<byte>>
    requires t != []
  {
    var u := Strip(t);
    if size < |u| + 2 || |u| > DNAME_ENCODED then None
    else
      match Split(u)
      case None => None
      case Some(ls) => Some(Wire(ls))
  }

  function EncodeSize(t: seq<byte>): nat
    requires t != []
  {
    if EndsWithDot(t) then |t| + 1 else |t| + 2
  }

  // ------------------------------------------------------- encode, decode

  predicate Plain(l: Label) {
    1 <= |l| <= 63 && DOT !in l
  }

  predicate AllPlain(ls: seq<Label>) {
    forall i | 0 <= i < |ls| :: Plain(ls[i])
  }

  /** The text with a dot after every label. */
  function Dotted(u: seq<byte>): seq<byte> {
    if u == [] || EndsWithDot(u) then u else u + [DOT]
  }

  lemma {:induction false} SplitText(u: seq<byte>)
    requires Split(u).Some?
    ensures AllPlain(Split(u).value) && Text(Split(u).value) == Dotted(u)
    decreases |u|
  {
    if u != [] {
      SplitText(AfterLabel(u));
      SplitFirst(u);
      DottedFirst(u);
    }
  }

  lemma SplitFirst(u: seq<byte>)
    requires u != [] && Split(u).Some?
    ensures Split(AfterLabel(u)).Some? && Plain(u[..FirstDot(u)])
    ensures Split(u).value == [u[..FirstDot(u)]] + Split(AfterLabel(u)).value
    ensures Text(Split(u).value) == u[..FirstDot(u)] + [DOT] + Text(Split(AfterLabel(u)).value)
  {
    hide FirstDot, AfterLabel;
    var l, rest := u[..FirstDot(u)], Split(AfterLabel(u)).value;
    assert ([l] + rest)[1..] == rest;
  }

  lemma DottedFirst(u: seq<byte>)
    requires u != []
    ensures u[..FirstDot(u)] + [DOT] + Dotted(AfterLabel(u)) == Dotted(u)
  {
    hide FirstDot;
    var i, rest := FirstDot(u), AfterLabel(u);
    if i + 1 < |u| {
      assert u == u[..i] + [DOT] + rest;
      assert EndsWithDot(u) <==> EndsWithDot(rest);
      assert u[..i] + [DOT] + (rest + [DOT]) == u + [DOT];
    } else if i < |u| {
      assert u == u[..i] + [DOT];
    } else {
      assert u == u[..i] && u[|u| - 1] in u[..i];
    }
  }

  lemma {:induction false} TextEnds(ls: seq<Label>)
    requires ls != []
    ensures EndsWithDot(Text(ls))
  {
    if |ls| > 1 {
      TextEnds(ls[1..]);
    }
  }

  lemma {:induction false} FirstDotUnique(s: seq<byte>, i: nat)
    requires i <= |s| && DOT !in s[..i] && (i < |s| ==> s[i] == DOT)
    ensures FirstDot(s) == i
  {
    if i > 0 {
      assert s[..i][0] == s[0] && s[..i][1..] == s[1..][..i - 1];
      FirstDotUnique(s[1..], i - 1);
    }
  }

  lemma {:induction false} TextSplits(ls: seq<Label>)
    requires AllPlain(ls)
    ensures Split(Strip(Text(ls))) == Some(ls)
  {
    if ls != [] {
      var t, rest := Text(ls), Text(ls[1..]);
      TextEnds(ls);
      var u, l := Strip(t), ls[0];
      assert ls == [l] + ls[1..];
      if |ls| == 1 {
        assert rest == [] && u == l;
        FirstDotUnique(u, |l|);
        assert u[..|l|] == l;
      } else {
        TextEnds(ls[1..]);
        TextSplits(ls[1..]);
        assert u == l + [DOT] + Strip(rest);
        assert u[..|l|] == l;
        FirstDotUnique(u, |l|);
        StripNonEmpty(ls[1..]);
        assert AfterLabel(u) == Strip(rest);
      }
    }
  }

  lemma StripNonEmpty(ls: seq<Label>)
    requires ls != [] && AllPlain(ls)
    ensures |Strip(Text(ls))| > 0
  {
    assert |Text(ls)| >= |ls[0]| + 1 >= 2;
  }

  /** Decoding an encoded text gives the text back, with exactly one dot after each label. */
  lemma EncodeDecode(t: seq<byte>, size: nat, textSize: nat)
    requires t != [] && Encode(t, size).Some?
    ensures var w := Encode(t, size).value;
            Decode(w, textSize) == if |w| <= textSize then Some(Dotted(Strip(t))) else None
  {
    SplitText(Strip(t));
    DecodeFits(Split(Strip(t)).value, textSize);
  }

  /** Encoding the text of a name gives the name back exactly when its labels have no dots
      inside and at most 63 octets. */
  lemma DecodeEncode(ls: seq<Label>, size: nat)
    requires LabelsOk(ls) && ls != [] && |Wire(ls)| <= size && |Wire(ls)| <= DNAME_ENCODED + 2
    ensures Text(ls) != []
    ensures Encode(Text(ls), size) == Some(Wire(ls)) <==> AllPlain(ls)
  {
    TextEnds(ls);
    TextLength(ls);
    var u := Strip(Text(ls));
    if AllPlain(ls) {
      TextSplits(ls);
    }
    if Encode(Text(ls), size) == Some(Wire(ls)) {
      SplitText(u);
      WireInjective(ls, Split(u).value);
    }
  }

  /** What a caller allocates is enough, and used up but for a doubled final dot. */
  lemma EncodedLength(t: seq<byte>, size: nat)
    requires t != [] && Encode(t, size).Some?
    ensures var w := Encode(t, size).value;
            |w| == if Strip(t) == [] then 1 else if EndsWithDot(Strip(t)) then EncodeSize(t) - 1 else EncodeSize(t)
    ensures EncodeSize(t) <= size
  {
    SplitText(Strip(t));
    TextLength(Split(Strip(t)).value);
  }

  /** The limit compares the text with the wire limit: names of 254 and 255 characters are
      encoded, into more than the 255 octets a name may have. */
  lemma EncodedTooLong(t: seq<byte>, size: nat)
    requires t != [] && Encode(t, size).Some?
    ensures |Encode(t, size).value| > DNAME_ENCODED <==> |Strip(t)| > 253 && !(|Strip(t)| == 254 && EndsWithDot(Strip(t)))
    ensures |Encode(t, size).value| <= DNAME_ENCODED + 2
  {
    EncodedLength(t, size);
  }

  lemma EncodedTooLongExample() returns (t: seq<byte>)
    ensures |t| == 255 && Encode(t, 257).Some? && |Encode(t, 257).value| == 257
  {
    var l: Label := seq(63, i => 97);
    var ls := [l, l, l, l];
    assert AllPlain(ls);
    TextSplits(ls);
    TextEnds(ls);
    TextLength(ls);
    FourBodies(l);
    t := Strip(Text(ls));
    assert !EndsWithDot(t) by { assert t[254] == Text(ls)[254]; FourTexts(l); }
  }

  /** The text `a.b` is two labels of one octet each. */
  lemma EncodedExample()
    ensures Encode([97, 46, 98], 5) == Some([1, 97, 1, 98, 0]) && Encode([97, 46, 98], 4) == None
  {
    var a: Label, b: Label := [97], [98];
    TextConcat([a], [b]);
    assert [a] + [b] == [a, b] && [a][1..] == [] && [b][1..] == [];
    assert Text([a]) == [97, 46] && Text([b]) == [98, 46] && Text([a, b]) == [97, 46, 98, 46];
    TextSplits([a, b]);
    assert Strip([97, 46, 98, 46]) == [97, 46, 98] == Strip([97, 46, 98]);
    BodyConcat([a], [b]);
    assert Body([a]) == [1, 97] && Body([b]) == [1, 98];
    assert Wire([a, b]) == [1, 97, 1, 98, 0];
  }

  lemma FourBodies(l: Label)
    requires LabelOk(l)
    ensures |Body([l, l, l, l])| == 4 * (|l| + 1)
  {
    BodyConcat([l], [l]);
    BodyConcat([l, l], [l, l]);
    assert [l] + [l] == [l, l] && [l, l] + [l, l] == [l, l, l, l];
    assert Body([l]) == [|l|] + l;
  }

  lemma FourTexts(l: Label)
    requires |l| == 63 && forall k | 0 <= k < 63 :: l[k] == 97
    ensures |Text([l, l, l, l])| == 256 && Text([l, l, l, l])[254] == 97
  {
    assert [l, l, l, l] == [l, l, l] + [l];
    TextConcat([l, l, l], [l]);
    assert [l, l, l][1..] == [l, l];
    assert [l, l][1..] == [l];
    assert [l][1..] == [];
  }

  // ----------------------------------------------------------------- concat

  datatype Concatenation = Joined(name: seq<byte>) | DoesNotFit | Aborted

  function Concat(w1: seq<byte>, w2: seq<byte>, size: nat): Concatenation {
    match JoinLengths(|w1|, |w2|, size)
    case Asserts => Aborted
    case TooLong => DoesNotFit
    case Joins => Joined(w1[..|w1| - 1] + w2)
  }

  /** Joining two encoded names encodes the joined labels. An assertion fails exactly for a
      name of 255 octets or more, legal or not, even where the joined name would fit; the
      joined name does not fit when it is too long for a name or for the buffer, or when the
      root is joined with a name that fills the buffer. */
  lemma ConcatJoins(a: seq<Label>, b: seq<Label>, size: nat)
    requires LabelsOk(a) && LabelsOk(b)
    ensures LabelsOk(a + b)
    ensures Concat(Wire(a), Wire(b), size)
         == if |Wire(a)| >= DNAME_ENCODED || |Wire(b)| >= DNAME_ENCODED then Aborted
            else if |Wire(a + b)| <= DNAME_ENCODED && |Wire(a + b)| <= size && !(a == [] && |Wire(b)| == size)
            then Joined(Wire(a + b)) else DoesNotFit
  {
    BodyConcat(a, b);
    assert Wire(a)[..|Wire(a)| - 1] == Body(a);
    assert Body(a) + Wire(b) == Wire(a + b);
    if a != [] {
      assert |Body(a)| >= 2;
    }
  }

  /** Two texts joined by a dot; the root adds nothing, and joined with itself stays the root. */
  function JoinedText(t1: seq<byte>, t2: seq<byte>): (t: seq<byte>)
    ensures t != []
  {
    var t := Dotted(Strip(t1)) + Dotted(Strip(t2));
    if t == [] then [DOT] else t
  }

  /** Joining the encodings of two texts is encoding the texts joined by a dot. */
  lemma ConcatEncodesJoin(t1: seq<byte>, t2: seq<byte>, size: nat)
    requires t1 != [] && t2 != []
    requires Encode(t1, size).Some? && Encode(t2, size).Some?
    requires Concat(Encode(t1, size).value, Encode(t2, size).value, size).Joined?
    ensures Encode(JoinedText(t1, t2), size).Some?
    ensures Concat(Encode(t1, size).value, Encode(t2, size).value, size)
         == Joined(Encode(JoinedText(t1, t2), size).value)
  {
    hide Concat, Encode, Split, Strip, Dotted, Text, Wire, LabelsOk;
    EncodedText(t1, size);
    EncodedText(t2, size);
    var a, b := Split(Strip(t1)).value, Split(Strip(t2)).value;
    TextConcat(a, b);
    ConcatJoins(a, b, size);
    EncodedJoin(a, b, size);
  }

  /** An encoded text is the text of plain labels, up to its final dot. */
  lemma EncodedText(t: seq<byte>, size: nat)
    requires t != [] && Encode(t, size).Some?
    ensures size >= 2 && Split(Strip(t)).Some?
    ensures var ls := Split(Strip(t)).value;
            && LabelsOk(ls) && AllPlain(ls)
            && Encode(t, size).value == Wire(ls) && Text(ls) == Dotted(Strip(t))
  {
    SplitText(Strip(t));
  }

  lemma EncodedJoin(a: seq<Label>, b: seq<Label>, size: nat)
    requires LabelsOk(a + b) && AllPlain(a) && AllPlain(b)
    requires 2 <= size && |Wire(a + b)| <= size && |Wire(a + b)| <= DNAME_ENCODED
    ensures Encode(if Text(a + b) == [] then [DOT] else Text(a + b), size) == Some(Wire(a + b))
  {
    if a + b != [] {
      DecodeEncode(a + b, size);
    } else {
      assert Strip([DOT]) == [];
    }
  }

  // ---------------------------------------------------------------- compare

  /** A compressed name against an encoded one; `None` is a failed assertion. */
  function Compare(m: seq<byte>, p: nat, w: seq<byte>): Option<bool> {
    match Expand(m, p, DNAME_ENCODED, COMPRESSION_DEPTH)
    case None => None
    case Some(e) => Some(e == w)
  }

  /** It decides whether the names have the same labels, octet by octet: letter case counts. */
  lemma CompareDecidesLabels(m: seq<byte>, p: nat, ls: seq<Label>)
    requires LabelsOk(ls)
    ensures var c, d := Compare(m, p, Wire(ls)), Labels(m, p, COMPRESSION_DEPTH);
            && (c == Some(true) <==> d == Some(ls) && |Wire(ls)| <= DNAME_ENCODED)
            && (c == None <==> d == None || |Wire(d.value)| > DNAME_ENCODED)
  {
    var d := Labels(m, p, COMPRESSION_DEPTH);
    if d.Some? && Wire(d.value) == Wire(ls) {
      WireInjective(d.value, ls);
    }
  }
}
