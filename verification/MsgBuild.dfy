/** The query the resolver sends (sections 4.1.1 and 4.1.2 of RFC 1035). */
module MsgBuild {
  import opened Bytes
  import opened Limits
  import opened Message
  import opened Names

  // ------------------------------------------------------------------ flags

  function BuildOptions(qr: bv16, opcode: bv16, aa: bv16, tc: bv16, rd: bv16, ra: bv16, z: bv16, rcode: bv16): bv16 {
    (qr << 15) | (opcode << 11) | (aa << 10) | (tc << 9) | (rd << 8) | (ra << 7) | (z << 4) | rcode
  }

  /** Fields within their widths do not run into each other: each can be read back. */
  lemma OptionsReadBack(qr: bv16, opcode: bv16, aa: bv16, tc: bv16, rd: bv16, ra: bv16, z: bv16, rcode: bv16)
    requires qr < 2 && opcode < 16 && aa < 2 && tc < 2 && rd < 2 && ra < 2 && z < 8 && rcode < 16
    ensures var o := BuildOptions(qr, opcode, aa, tc, rd, ra, z, rcode);
            && o >> 15 == qr && (o >> 11) & 15 == opcode && (o >> 10) & 1 == aa && (o >> 9) & 1 == tc
            && (o >> 8) & 1 == rd && (o >> 7) & 1 == ra && (o >> 4) & 7 == z && o & 15 == rcode
  {
  }

  const QUERY_FLAGS := 0x0100

  // ------------------------------------------------------------------ query

  ghost predicate Asked(id: nat, qclass: nat, qtype: nat) {
    id < 0x1_0000 && qclass < 0x1_0000 && qtype < 0x1_0000
  }

  ghost function Head(id: nat): seq<byte>
    requires id < 0x1_0000
  {
    HeaderOctets(id, QUERY_FLAGS, 1, 0, 0, 0)
  }

  ghost function Build(id: nat, dname: seq<byte>, qclass: nat, qtype: nat): seq<byte>
    requires Asked(id, qclass, qtype)
  {
    Head(id) + dname + Unpack2(qtype) + Unpack2(qclass)
  }

  /** A buffer that holds the longest query is demanded, however short the name is. */
  method BuildQuery(buf: array<byte>, id: nat, dname: seq<byte>, qclass: nat, qtype: nat) returns (ok: bool, len: nat)
    requires Asked(id, qclass, qtype) && 1 <= |dname| <= DNAME_ENCODED
    modifies buf
    ensures ok <==> buf.Length >= 271
    ensures ok ==> len == 16 + |dname| && 17 <= len <= 271
                   && buf[..len] == Build(id, dname, qclass, qtype)
    ensures forall k | (if ok then len else 0) <= k < buf.Length :: buf[k] == old(buf[k])
  {
    if buf.Length < MSG_HIGH {
      return false, 0;
    }
    BuildHead(buf, id);
    var i := MSG_HEADER;
    forall k | 0 <= k < |dname| {
      buf[i + k] := dname[k];
    }
    i := i + |dname|;
    assert buf[12..i] == dname;
    i := Unpack2Into(buf, i, qtype);
    i := Unpack2Into(buf, i, qclass);
    assert buf[..12] == Head(id) && buf[12..i - 4] == dname;
    assert buf[..i] == buf[..12] + buf[12..i - 4] + [buf[i - 4], buf[i - 3]] + [buf[i - 2], buf[i - 1]];
    assert MSG_LOW <= i <= MSG_HIGH;
    return true, i;
  }

  method BuildHead(buf: array<byte>, id: nat)
    requires buf.Length >= MSG_HEADER && id < 0x1_0000
    modifies buf
    ensures buf[..MSG_HEADER] == Head(id)
    ensures forall k | MSG_HEADER <= k < buf.Length :: buf[k] == old(buf[k])
  {
    var i := Unpack2Into(buf, 0, id);
    i := Unpack2Into(buf, i, QUERY_FLAGS);
    i := Unpack2Into(buf, i, 1);
    i := Unpack2Into(buf, i, 0);
    i := Unpack2Into(buf, i, 0);
    i := Unpack2Into(buf, i, 0);
    HeadOctets(id);
  }

  lemma HeadOctets(id: nat)
    requires id < 0x1_0000
    ensures Head(id) == [id / 0x100, id % 0x100, 1, 0, 0, 1, 0, 0, 0, 0, 0, 0]
  {
  }

  /** A built query parses back: the same id, RD and nothing else among the flags, and one
      question with the type, the class and a name that expands to the given one. */
  lemma BuildParses(id: nat, ls: seq<Label>, qclass: nat, qtype: nat)
    requires Asked(id, qclass, qtype) && LabelsOk(ls) && |Wire(ls)| <= DNAME_ENCODED
    ensures var m := Build(id, Wire(ls), qclass, qtype);
            var h := Message.Header(id, QUERY_FLAGS, 0, 1, 0, 0, 0);
            && 17 <= |m| == 16 + |Wire(ls)| <= 271
            && ParseHeader(m) == Some(h)
            && var r := ParseMessage(h, m);
               && r.Good? && |r.parsed.question| == 1
               && r.parsed.answer == r.parsed.authority == r.parsed.additional == []
               && r.parsed.question[0] == Rr(MSG_HEADER, |Wire(ls)|, qtype, qclass, 0, 0, 0)
               && Expand(m, MSG_HEADER, DNAME_ENCODED, COMPRESSION_DEPTH) == Some(Wire(ls))
    ensures BuildOptions(0, 0, 0, 0, 1, 0, 0, 0) == 0x0100
  {
    var m := Build(id, Wire(ls), qclass, qtype);
    HeadParses(id, Wire(ls), qclass, qtype);
    QuestionParses(id, ls, qclass, qtype);
    assert m == Head(id) + Wire(ls) + (Unpack2(qtype) + Unpack2(qclass));
    LabelsOfWire(Head(id), ls, Unpack2(qtype) + Unpack2(qclass), COMPRESSION_DEPTH);
  }

  lemma HeadParses(id: nat, dname: seq<byte>, qclass: nat, qtype: nat)
    requires Asked(id, qclass, qtype)
    ensures var m := Build(id, dname, qclass, qtype);
            |m| == 16 + |dname| && ParseHeader(m) == Some(Message.Header(id, QUERY_FLAGS, 0, 1, 0, 0, 0))
  {
    hide HeaderOctets, ParseHeader, Unpack2;
    HeaderReads(id, QUERY_FLAGS, 1, 0, 0, 0, dname + Unpack2(qtype) + Unpack2(qclass));
    var m := Build(id, dname, qclass, qtype);
    assert m == Head(id) + (dname + Unpack2(qtype) + Unpack2(qclass));
  }

  lemma QuestionParses(id: nat, ls: seq<Label>, qclass: nat, qtype: nat)
    requires Asked(id, qclass, qtype) && LabelsOk(ls)
    ensures var m := Build(id, Wire(ls), qclass, qtype);
            var r := ParseMessage(Message.Header(id, QUERY_FLAGS, 0, 1, 0, 0, 0), m);
            && r.Good? && |r.parsed.question| == 1
            && r.parsed.answer == r.parsed.authority == r.parsed.additional == []
            && r.parsed.question[0] == Rr(MSG_HEADER, |Wire(ls)|, qtype, qclass, 0, 0, 0)
  {
    hide HeaderOctets;
    var rec := Record(ls, None, qtype, qclass, 0, []);
    var m := Build(id, Wire(ls), qclass, qtype);
    assert WrittenAll(true, [rec]) == Written(true, rec);
    assert m == Head(id) + WrittenAll(true, [rec]) + [] + [] + [];
    RecordsRead(Message.Header(id, QUERY_FLAGS, 0, 1, 0, 0, 0), Head(id), [rec], [], [], []);
    assert m[MSG_HEADER..MSG_HEADER + |Wire(ls)|] == Owner(rec);
    SkipOwner(m, MSG_HEADER, rec);
  }
}
