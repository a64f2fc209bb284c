/** The parser as the program runs it, a position moving through the message, and the
    parsers of the record data it is used for. */
module Parser {
  import opened Bytes
  import opened Limits
  import opened Message
  import opened NameBuffers
  import opened Names

  method ParseQuestionRr(m: seq<byte>, p: nat) returns (r: Parse<(Rr, nat)>)
    requires p <= |m|
    ensures r == ParseQuestion(m, p)
  {
    var next := SkipRrOwner(m, p);
    if next.None? {
      return Fails;
    }
    var q := next.value;
    assert p < q;
    if q >= |m| {
      return AssertFails;
    }
    if q + 4 > |m| {
      return Fails;
    }
    r := Got((Rr(p, q - p, At2(m, q), At2(m, q + 2), 0, 0, 0), q + 4));
  }

  method ParseAnswerRr(m: seq<byte>, p: nat) returns (r: Parse<(Rr, nat)>)
    requires p <= |m|
    ensures r == ParseRr(m, p)
  {
    var next := SkipRrOwner(m, p);
    if next.None? {
      return Fails;
    }
    var q := next.value;
    assert p < q;
    if q >= |m| {
      return AssertFails;
    }
    if q + 10 > |m| {
      return Fails;
    }
    var rdlength := At2(m, q + 8);
    if q + 10 + rdlength > |m| {
      return Fails;
    }
    r := Got((Rr(p, q - p, At2(m, q), At2(m, q + 2), At4(m, q + 4), q + 10, rdlength), q + 10 + rdlength));
  }

  /** One section: records are parsed and pushed until the count is reached. */
  method Section(question: bool, m: seq<byte>, p: nat, count: nat) returns (r: Parse<(seq<Rr>, nat)>)
    requires p <= |m|
    ensures r == ParseSection(question, m, p, count)
  {
    hide ParseOne;
    var list: seq<Rr> := [];
    var q := p;
    BehindNothing(ParseSection(question, m, p, count));
    for i := 0 to count
      invariant p <= q <= |m|
      invariant ParseSection(question, m, p, count) == Behind(list, ParseSection(question, m, q, count - i))
    {
      var one := ParseNext(question, m, q);
      if one.Fails? {
        return Fails;
      }
      if one.AssertFails? {
        return AssertFails;
      }
      var (rr, next) := one.value;
      assert q < next <= |m|;
      BehindTwice(list, [rr], ParseSection(question, m, next, count - i - 1));
      list, q := list + [rr], next;
    }
    assert list + [] == list;
    r := Got((list, q));
  }

  method ParseNext(question: bool, m: seq<byte>, p: nat) returns (r: Parse<(Rr, nat)>)
    requires p <= |m|
    ensures r == ParseOne(question, m, p)
  {
    if question {
      r := ParseQuestionRr(m, p);
    } else {
      r := ParseAnswerRr(m, p);
    }
  }

  method ParseAll(h: Header, m: seq<byte>) returns (r: Result)
    ensures r == ParseMessage(h, m)
  {
    hide ParseSection;
    if |m| < MSG_HEADER {
      return ShortMsg;
    }
    var qd := Section(true, m, MSG_HEADER, h.qdcount);
    if !qd.Got? {
      return if qd.AssertFails? then Aborted else BadQuestion;
    }
    var an := Section(false, m, qd.value.1, h.ancount);
    if !an.Got? {
      return if an.AssertFails? then Aborted else BadAnswer;
    }
    var ns := Section(false, m, an.value.1, h.nscount);
    if !ns.Got? {
      return if ns.AssertFails? then Aborted else BadAuthority;
    }
    var ar := Section(false, m, ns.value.1, h.arcount);
    if !ar.Got? {
      return if ar.AssertFails? then Aborted else BadAdditional;
    }
    if ar.value.1 < |m| {
      return LongMsg;
    }
    r := Good(Parsed(qd.value.0, an.value.0, ns.value.0, ar.value.0));
  }

  // ------------------------------------------------------------ record data

  datatype SrvData = SrvData(priority: nat, weight: nat, port: nat, target: seq<byte>)

  const SRV_LOW := 7
  const SRV_HIGH := 261

  function ParseRrSrv(rdata: seq<byte>): Option<SrvData> {
    if |rdata| < SRV_LOW || |rdata| > SRV_HIGH || Skip(rdata, 6) != Some(|rdata|) then None
    else Some(SrvData(At2(rdata, 0), At2(rdata, 2), At2(rdata, 4), rdata[6..]))
  }

  /** The octets of a name in place: labels, and the terminator or a pointer. */
  ghost predicate NameShape(a: seq<Label>, t: seq<byte>) {
    && LabelsOk(a)
    && (t == Body(a) + [0] || (|t| == |Body(a)| + 2 && t[..|Body(a)|] == Body(a) && t[|Body(a)|] >= COMPRESSED))
  }

  lemma SkipFinds(m: seq<byte>, p: nat, a: seq<Label>)
    requires InlineAt(m, p, a) && p + |Body(a)| < |m|
    requires m[p + |Body(a)|] == 0 || m[p + |Body(a)|] >= COMPRESSED
    ensures var e := p + |Body(a)|;
            Skip(m, p) == if m[e] == 0 then Some(e + 1) else if e + 2 <= |m| then Some(e + 2) else None
  {
    SkipInline(m, p, a);
  }

  lemma {:induction false} SkipShape(m: seq<byte>, p: nat) returns (a: seq<Label>)
    requires Skip(m, p).Some?
    ensures InlineAt(m, p, a) && p + |Body(a)| < |m|
    ensures m[p + |Body(a)|] == 0 || m[p + |Body(a)|] >= COMPRESSED
    decreases |m| - p
  {
    if m[p] == 0 || m[p] >= COMPRESSED {
      a := [];
      assert m[p..p] == Body(a);
    } else {
      var l := m[p + 1..p + 1 + m[p]];
      var rest := SkipShape(m, p + 1 + m[p]);
      a := [l] + rest;
      InlineOne(m, p, l);
      InlineSplit(m, p, [l], rest);
      BodyConcat([l], rest);
    }
  }

  /** SRV data is accepted exactly when it has 7 to 261 octets and the target fills what
      follows the three numbers; a target may end in a compression pointer. */
  lemma SrvAccepted(rdata: seq<byte>)
    ensures ParseRrSrv(rdata).Some? <==>
            SRV_LOW <= |rdata| <= SRV_HIGH && exists a :: NameShape(a, rdata[6..])
    ensures ParseRrSrv(rdata).Some? ==> 1 <= |ParseRrSrv(rdata).value.target| <= DNAME_ENCODED
  {
    hide Skip, At2;
    if ParseRrSrv(rdata).Some? {
      SkipToShape(rdata, 6);
    }
    if SRV_LOW <= |rdata| <= SRV_HIGH && exists a :: NameShape(a, rdata[6..]) {
      var a :| NameShape(a, rdata[6..]);
      ShapeToSkip(rdata, 6, a);
    }
  }

  lemma SkipToShape(m: seq<byte>, p: nat)
    requires p <= |m| && Skip(m, p) == Some(|m|)
    ensures exists a :: NameShape(a, m[p..])
  {
    var a := SkipShape(m, p);
    SkipFinds(m, p, a);
    var t, b := m[p..], |Body(a)|;
    assert t[..b] == m[p..p + b] && t[b] == m[p + b];
    assert m[p + b] == 0 ==> t == t[..b] + [0];
    assert NameShape(a, t);
  }

  lemma ShapeToSkip(m: seq<byte>, p: nat, a: seq<Label>)
    requires p <= |m| && NameShape(a, m[p..])
    ensures Skip(m, p) == Some(|m|)
  {
    var t, b := m[p..], |Body(a)|;
    assert t[..b] == Body(a) && m[p..p + b] == t[..b] && t[b] == m[p + b];
    SkipFinds(m, p, a);
  }

  /** Written SRV data is read back. */
  lemma SrvRoundTrip(priority: nat, weight: nat, port: nat, ls: seq<Label>)
    requires priority < 0x1_0000 && weight < 0x1_0000 && port < 0x1_0000
    requires LabelsOk(ls) && |Wire(ls)| <= DNAME_ENCODED
    ensures ParseRrSrv(Unpack2(priority) + Unpack2(weight) + Unpack2(port) + Wire(ls))
         == Some(SrvData(priority, weight, port, Wire(ls)))
  {
    hide Unpack2, At2, Skip, Body;
    var p, w, o := Unpack2(priority), Unpack2(weight), Unpack2(port);
    var rdata := p + w + o + Wire(ls);
    assert rdata[6..] == Wire(ls);
    assert NameShape(ls, rdata[6..]);
    SrvAccepted(rdata);
    assert rdata[0..2] == p && rdata[2..4] == w && rdata[4..6] == o;
    ReadNumbers(rdata, 0, priority, 0);
    ReadNumbers(rdata, 2, weight, 0);
    ReadNumbers(rdata, 4, port, 0);
  }

  /** Accepted SRV data is its three numbers and its target, octet by octet. */
  lemma SrvOctets(rdata: seq<byte>, d: SrvData)
    ensures ParseRrSrv(rdata) == Some(d) <==>
            && d.priority < 0x1_0000 && d.weight < 0x1_0000 && d.port < 0x1_0000
            && rdata == Unpack2(d.priority) + Unpack2(d.weight) + Unpack2(d.port) + d.target
            && 7 <= |rdata| <= 261 && exists a :: NameShape(a, d.target)
  {
    hide Unpack2, At2, Skip, NameShape;
    SrvAccepted(rdata);
    if ParseRrSrv(rdata).Some? {
      ReadOctets(rdata, 0);
      ReadOctets(rdata, 2);
      ReadOctets(rdata, 4);
      assert rdata == rdata[0..2] + rdata[2..4] + rdata[4..6] + rdata[6..];
    }
    if d.priority < 0x1_0000 && d.weight < 0x1_0000 && d.port < 0x1_0000
       && rdata == Unpack2(d.priority) + Unpack2(d.weight) + Unpack2(d.port) + d.target {
      assert rdata[0..2] == Unpack2(d.priority) && rdata[2..4] == Unpack2(d.weight) && rdata[4..6] == Unpack2(d.port);
      assert rdata[6..] == d.target;
      ReadNumbers(rdata, 0, d.priority, 0);
      ReadNumbers(rdata, 2, d.weight, 0);
      ReadNumbers(rdata, 4, d.port, 0);
    }
  }

  lemma ReadOctets(m: seq<byte>, p: nat)
    requires p + 2 <= |m|
    ensures At2(m, p) < 0x1_0000 && m[p..p + 2] == Unpack2(At2(m, p))
  {
    hide Pack2, Pack4, Unpack2, Unpack4;
    PackUnpack(0, 0, m[p], m[p + 1], 0, 0);
    assert m[p..p + 2] == [m[p], m[p + 1]];
  }

  /** A CNAME target, wherever in the message its data stands. */
  function ParseRrCname(m: seq<byte>, rdata: nat): (r: Option<seq<byte>>)
    ensures r.Some? ==> 0 < |r.value| <= DNAME_ENCODED
  {
    Expand(m, rdata, DNAME_ENCODED, COMPRESSION_DEPTH)
  }
}
