/** Messages: the header and the query of section 4.1 of RFC 1035, and the parser that
    splits an answer into its records. */
module Message {
  import opened Bytes
  import opened Limits
  import opened Names

  datatype Header = Header(id: nat, flags: nat, rcode: nat, qdcount: nat, ancount: nat, nscount: nat, arcount: nat)

  function At2(m: seq<byte>, p: nat): nat
    requires p + 2 <= |m|
  {
    Pack2(m[p], m[p + 1])
  }

  function At4(m: seq<byte>, p: nat): nat
    requires p + 4 <= |m|
  {
    Pack4(m[p], m[p + 1], m[p + 2], m[p + 3])
  }

  function ParseHeader(m: seq<byte>): Option<Header> {
    if |m| < MSG_HEADER then None
    else Some(Header(At2(m, 0), At2(m, 2), m[3] % 0x10, At2(m, 4), At2(m, 6), At2(m, 8), At2(m, 10)))
  }

  // ---------------------------------------------------------------- records

  /** A record as the parser leaves it: positions in the message, not copies. */
  datatype Rr = Rr(owner: nat, ownerLen: nat, rtype: nat, qclass: nat, ttl: nat, rdata: nat, rdlength: nat)

  /** `AssertFails`: an assertion of the parser fails. */
  datatype Parse<T> = Fails | AssertFails | Got(value: T)

  /** An owner must end before the message does. */
  function ParseQuestion(m: seq<byte>, p: nat): (r: Parse<(Rr, nat)>)
    ensures r.Got? ==> p < r.value.1 <= |m|
  {
    match Skip(m, p)
    case None => Fails
    case Some(q) =>
      if q == |m| then AssertFails
      else if q + 4 > |m| then Fails
      else Got((Rr(p, q - p, At2(m, q), At2(m, q + 2), 0, 0, 0), q + 4))
  }

  /** The fixed part is read before its length is checked; where it is cut by the end of the
      message the record fails whatever is read behind. */
  function ParseRr(m: seq<byte>, p: nat): (r: Parse<(Rr, nat)>)
    ensures r.Got? ==> p < r.value.1 <= |m|
  {
    match Skip(m, p)
    case None => Fails
    case Some(q) =>
      if q == |m| then AssertFails
      else if q + 10 > |m| || q + 10 + At2(m, q + 8) > |m| then Fails
      else Got((Rr(p, q - p, At2(m, q), At2(m, q + 2), At4(m, q + 4), q + 10, At2(m, q + 8)),
                q + 10 + At2(m, q + 8)))
  }

  function ParseOne(question: bool, m: seq<byte>, p: nat): (r: Parse<(Rr, nat)>)
    ensures r.Got? ==> p < r.value.1 <= |m|
  {
    if question then ParseQuestion(m, p) else ParseRr(m, p)
  }

  function ParseSection(question: bool, m: seq<byte>, p: nat, count: nat): (r: Parse<(seq<Rr>, nat)>)
    ensures r.Got? && p <= |m| ==> p <= r.value.1 <= |m|
    decreases count
  {
    if count == 0 then Got(([], p))
    else
      match ParseOne(question, m, p)
      case Fails => Fails
      case AssertFails => AssertFails
      case Got((rr, q)) => Behind([rr], ParseSection(question, m, q, count - 1))
  }

  /** The records already found come first. */
  function Behind(rrs: seq<Rr>, r: Parse<(seq<Rr>, nat)>): Parse<(seq<Rr>, nat)> {
    match r
    case Got((more, e)) => Got((rrs + more, e))
    case _ => r
  }

  datatype Parsed = Parsed(question: seq<Rr>, answer: seq<Rr>, authority: seq<Rr>, additional: seq<Rr>)

  datatype Result =
    | ShortMsg | BadQuestion | BadAnswer | BadAuthority | BadAdditional | LongMsg
    | Aborted
    | Good(parsed: Parsed)

  function ParseMessage(h: Header, m: seq<byte>): Result {
    if |m| < MSG_HEADER then ShortMsg
    else
      match ParseSection(true, m, MSG_HEADER, h.qdcount)
      case Fails => BadQuestion
      case AssertFails => Aborted
      case Got((qd, a)) =>
        match ParseSection(false, m, a, h.ancount)
        case Fails => BadAnswer
        case AssertFails => Aborted
        case Got((an, b)) =>
          match ParseSection(false, m, b, h.nscount)
          case Fails => BadAuthority
          case AssertFails => Aborted
          case Got((ns, c)) =>
            match ParseSection(false, m, c, h.arcount)
            case Fails => BadAdditional
            case AssertFails => Aborted
            case Got((ar, d)) => if d < |m| then LongMsg else Good(Parsed(qd, an, ns, ar))
  }

  // ----------------------------------------------------------------- tiling

  /** The record covers exactly positions `rr.owner` to `e`: its owner, its fixed part and
      its data follow each other, and its fields are those bytes. */
  ghost predicate Covers(question: bool, m: seq<byte>, rr: Rr, e: nat) {
    var q := rr.owner + rr.ownerLen;
    && Skip(m, rr.owner) == Some(q)
    && rr.owner < e <= |m|
    && (if question then
          && e == q + 4
          && rr.rtype == At2(m, q) && rr.qclass == At2(m, q + 2) && rr.ttl == rr.rdata == rr.rdlength == 0
        else
          && rr.rdata == q + 10 && e == rr.rdata + rr.rdlength
          && rr.rtype == At2(m, q) && rr.qclass == At2(m, q + 2) && rr.ttl == At4(m, q + 4)
          && rr.rdlength == At2(m, q + 8))
  }

  function End(question: bool, rr: Rr): nat {
    if question then rr.owner + rr.ownerLen + 4 else rr.rdata + rr.rdlength
  }

  /** The records fill positions `p` to `e` without gaps and without overlap, in order. */
  ghost predicate Tiles(question: bool, m: seq<byte>, p: nat, rrs: seq<Rr>, e: nat)
    decreases |rrs|
  {
    if rrs == [] then p == e
    else
      && rrs[0].owner == p
      && Covers(question, m, rrs[0], End(question, rrs[0]))
      && Tiles(question, m, End(question, rrs[0]), rrs[1..], e)
  }

  lemma ParseOneCovers(question: bool, m: seq<byte>, p: nat, rr: Rr, e: nat)
    ensures ParseOne(question, m, p) == Got((rr, e)) <==>
            rr.owner == p && e == End(question, rr) && Covers(question, m, rr, e)
  {
  }

  /** The parser finds `count` records exactly when they tile the section, and finds those. */
  lemma {:induction false} SectionTiles(question: bool, m: seq<byte>, p: nat, count: nat, rrs: seq<Rr>, e: nat)
    ensures ParseSection(question, m, p, count) == Got((rrs, e)) <==>
            |rrs| == count && Tiles(question, m, p, rrs, e)
    decreases count
  {
    if rrs != [] && count > 0 {
      var next := End(question, rrs[0]);
      ParseOneCovers(question, m, p, rrs[0], next);
      SectionTiles(question, m, next, count - 1, rrs[1..], e);
      assert rrs == [rrs[0]] + rrs[1..];
      SectionFirst(question, m, p, count);
    }
  }

  lemma SectionFirst(question: bool, m: seq<byte>, p: nat, count: nat)
    requires count > 0
    ensures var r := ParseSection(question, m, p, count);
            r.Got? ==> var first := ParseOne(question, m, p);
                       && first.Got? && |r.value.0| > 0 && r.value.0[0] == first.value.0
                       && ParseSection(question, m, first.value.1, count - 1) == Got((r.value.0[1..], r.value.1))
  {
    var r, first := ParseSection(question, m, p, count), ParseOne(question, m, p);
    if r.Got? {
      var rest := ParseSection(question, m, first.value.1, count - 1);
      assert r.value.0[1..] == rest.value.0;
    }
  }

  /** Where the four sections end. */
  ghost predicate TilesMessage(m: seq<byte>, x: Parsed, a: nat, b: nat, c: nat) {
    && Tiles(true, m, MSG_HEADER, x.question, a)
    && Tiles(false, m, a, x.answer, b)
    && Tiles(false, m, b, x.authority, c)
    && Tiles(false, m, c, x.additional, |m|)
  }

  ghost predicate CountsAre(h: Header, x: Parsed) {
    |x.question| == h.qdcount && |x.answer| == h.ancount && |x.authority| == h.nscount && |x.additional| == h.arcount
  }

  /** A message is accepted exactly when the counted records of its four sections tile it
      from the header to its last octet; the result is that tiling, and it is the only one. */
  lemma MessageTiles(h: Header, m: seq<byte>, x: Parsed)
    requires |m| >= MSG_HEADER
    ensures ParseMessage(h, m) == Good(x) <==> CountsAre(h, x) && exists a, b, c :: TilesMessage(m, x, a, b, c)
  {
    hide Tiles, ParseSection;
    if ParseMessage(h, m) == Good(x) {
      var a := ParseSection(true, m, MSG_HEADER, h.qdcount).value.1;
      var b := ParseSection(false, m, a, h.ancount).value.1;
      var c := ParseSection(false, m, b, h.nscount).value.1;
      SectionTiles(true, m, MSG_HEADER, h.qdcount, x.question, a);
      SectionTiles(false, m, a, h.ancount, x.answer, b);
      SectionTiles(false, m, b, h.nscount, x.authority, c);
      SectionTiles(false, m, c, h.arcount, x.additional, |m|);
      assert TilesMessage(m, x, a, b, c);
    }
    if CountsAre(h, x) && exists a, b, c :: TilesMessage(m, x, a, b, c) {
      var a, b, c :| TilesMessage(m, x, a, b, c);
      SectionTiles(true, m, MSG_HEADER, h.qdcount, x.question, a);
      SectionTiles(false, m, a, h.ancount, x.answer, b);
      SectionTiles(false, m, b, h.nscount, x.authority, c);
      SectionTiles(false, m, c, h.arcount, x.additional, |m|);
    }
  }

  /** Every record, its owner and its data lie inside the message, in order. */
  lemma {:induction false} TilesInside(question: bool, m: seq<byte>, p: nat, rrs: seq<Rr>, e: nat, i: nat)
    requires Tiles(question, m, p, rrs, e) && i < |rrs|
    ensures p <= rrs[i].owner < End(question, rrs[i]) <= e <= |m|
    ensures i + 1 < |rrs| ==> rrs[i + 1].owner == End(question, rrs[i])
    decreases |rrs|
  {
    if i > 0 {
      TilesInside(question, m, End(question, rrs[0]), rrs[1..], e, i - 1);
    } else if |rrs| > 1 {
      TilesInside(question, m, End(question, rrs[0]), rrs[1..], e, 0);
    }
  }

  /** The section cannot be found: no such number of records tiles it, and no assertion fails. */
  ghost predicate Untiled(question: bool, m: seq<byte>, p: nat, count: nat) {
    !(exists rrs, e :: |rrs| == count && Tiles(question, m, p, rrs, e)) && !OwnerEndsMessage(question, m, p, count)
  }

  lemma UntiledExactly(question: bool, m: seq<byte>, p: nat, count: nat)
    ensures ParseSection(question, m, p, count).Fails? <==> Untiled(question, m, p, count)
  {
    hide Tiles, ParseSection, OwnerEndsMessage;
    var r := ParseSection(question, m, p, count);
    SectionAborts(question, m, p, count);
    if r.Got? {
      SectionTiles(question, m, p, count, r.value.0, r.value.1);
    }
    forall rrs, e | |rrs| == count && Tiles(question, m, p, rrs, e)
      ensures r.Got?
    {
      SectionTiles(question, m, p, count, rrs, e);
    }
  }

  function CountOf(h: Header, n: nat): nat {
    if n == 0 then h.qdcount else if n == 1 then h.ancount else if n == 2 then h.nscount else h.arcount
  }

  /** The first sections tile the message behind its header: section `i` from `at[i]` on. */
  ghost predicate Sections(h: Header, m: seq<byte>, xs: seq<seq<Rr>>, at: seq<nat>) {
    && |at| == |xs| + 1 && at[0] == 12
    && forall i | 0 <= i < |xs| :: |xs[i]| == CountOf(h, i) && Tiles(i == 0, m, at[i], xs[i], at[i + 1])
  }

  /** The first `n` sections tile it up to `p`. */
  ghost predicate TiledTo(h: Header, m: seq<byte>, n: nat, p: nat) {
    exists xs, at :: Sections(h, m, xs, at) && |xs| == n && |at| == n + 1 && at[n] == p
  }

  lemma SectionsNext(h: Header, m: seq<byte>, xs: seq<seq<Rr>>, at: seq<nat>, rrs: seq<Rr>, p: nat)
    ensures Sections(h, m, xs, at) && |rrs| == CountOf(h, |xs|) && Tiles(|xs| == 0, m, at[|xs|], rrs, p) ==>
              Sections(h, m, xs + [rrs], at + [p])
    ensures Sections(h, m, xs, at) && xs != [] ==> var n := |xs| - 1;
              && Sections(h, m, xs[..n], at[..n + 1])
              && |xs[n]| == CountOf(h, n) && Tiles(n == 0, m, at[n], xs[n], at[n + 1])
  {
    hide Tiles;
  }

  lemma TiledNext(h: Header, m: seq<byte>, n: nat, q: nat, next: nat)
    requires next == n + 1 && forall p: nat :: TiledTo(h, m, n, p) <==> p == q
    ensures var r := ParseSection(n == 0, m, q, CountOf(h, n));
            && (forall p: nat :: TiledTo(h, m, next, p) <==> r.Got? && p == r.value.1)
            && (r.Fails? <==> Untiled(n == 0, m, q, CountOf(h, n)))
  {
    hide Tiles, ParseSection, Untiled, Sections;
    FoundSection(n == 0, m, q, CountOf(h, n));
    var r := ParseSection(n == 0, m, q, CountOf(h, n));
    if r.Got? {
      assert TiledTo(h, m, n, q);
      var xs, at :| Sections(h, m, xs, at) && |xs| == n && |at| == n + 1 && at[n] == q;
      SectionsNext(h, m, xs, at, r.value.0, r.value.1);
      SectionsLength(h, m, xs, at);
      assert TiledTo(h, m, next, r.value.1);
    }
    forall p: nat | TiledTo(h, m, next, p)
      ensures r.Got? && p == r.value.1
    {
      var xs, at :| Sections(h, m, xs, at) && |xs| == next && |at| == next + 1 && at[next] == p;
      SectionsNext(h, m, xs, at, [], 0);
      SectionsLength(h, m, xs, at);
      assert TiledTo(h, m, n, at[n]) by { assert at[..n + 1][n] == at[n] && |xs[..n]| == n; }
    }
  }

  lemma SectionsLength(h: Header, m: seq<byte>, xs: seq<seq<Rr>>, at: seq<nat>)
    requires Sections(h, m, xs, at)
    ensures |at| == |xs| + 1
  {
  }

  /** Which section a message is refused for: the first that no records tile, behind those that
      are tiled; or, when all are, because something follows them. */
  lemma MessageFails(h: Header, m: seq<byte>)
    ensures ParseMessage(h, m).ShortMsg? <==> |m| < 12
    ensures var r := ParseMessage(h, m);
            |m| >= 12 ==>
              && (r.BadQuestion? <==> Untiled(true, m, 12, h.qdcount))
              && (r.BadAnswer? <==> exists p: nat :: TiledTo(h, m, 1, p) && Untiled(false, m, p, h.ancount))
              && (r.BadAuthority? <==> exists p: nat :: TiledTo(h, m, 2, p) && Untiled(false, m, p, h.nscount))
              && (r.BadAdditional? <==> exists p: nat :: TiledTo(h, m, 3, p) && Untiled(false, m, p, h.arcount))
              && (r.LongMsg? <==> exists p: nat :: TiledTo(h, m, 4, p) && p < |m|)
  {
    hide TiledTo, ParseSection, Untiled;
    assert forall p: nat :: TiledTo(h, m, 0, p) <==> p == 12 by { TiledNone(h, m); }
    TiledNext(h, m, 0, 12, 1);
    var qd := ParseSection(true, m, 12, h.qdcount);
    if qd.Got? {
      TiledNext(h, m, 1, qd.value.1, 2);
      var an := ParseSection(false, m, qd.value.1, h.ancount);
      if an.Got? {
        TiledNext(h, m, 2, an.value.1, 3);
        var ns := ParseSection(false, m, an.value.1, h.nscount);
        if ns.Got? {
          TiledNext(h, m, 3, ns.value.1, 4);
          var ar := ParseSection(false, m, ns.value.1, h.arcount);
          assert ar.Got? ==> TiledTo(h, m, 4, ar.value.1);
        } else {
          NoneTiled(h, m, 3, 4);
        }
      } else {
        NoneTiled(h, m, 2, 3);
        NoneTiled(h, m, 3, 4);
      }
    } else {
      NoneTiled(h, m, 1, 2);
      NoneTiled(h, m, 2, 3);
      NoneTiled(h, m, 3, 4);
    }
  }

  lemma TiledNone(h: Header, m: seq<byte>)
    ensures forall p: nat :: TiledTo(h, m, 0, p) <==> p == 12
  {
    assert Sections(h, m, [], [12]);
  }

  lemma NoneTiled(h: Header, m: seq<byte>, n: nat, next: nat)
    requires next == n + 1 && forall p: nat :: !TiledTo(h, m, n, p)
    ensures forall p: nat :: !TiledTo(h, m, next, p)
  {
    forall p: nat | TiledTo(h, m, next, p)
      ensures false
    {
      var q := TiledBefore(h, m, n, p);
    }
  }

  lemma TiledBefore(h: Header, m: seq<byte>, n: nat, p: nat) returns (q: nat)
    requires TiledTo(h, m, n + 1, p)
    ensures TiledTo(h, m, n, q)
  {
    hide Sections;
    var xs, at :| Sections(h, m, xs, at) && |xs| == n + 1 && |at| == n + 2 && at[n + 1] == p;
    SectionsNext(h, m, xs, at, [], 0);
    assert at[..n + 1][n] == at[n] && |xs[..n]| == n;
    q := at[n];
  }

  /** A section has one tiling at most, which the parser finds. */
  lemma FoundSection(question: bool, m: seq<byte>, p: nat, count: nat)
    ensures var r := ParseSection(question, m, p, count);
            && (r.Fails? <==> Untiled(question, m, p, count))
            && (r.Got? ==> |r.value.0| == count && Tiles(question, m, p, r.value.0, r.value.1))
            && forall rrs, e :: |rrs| == count && Tiles(question, m, p, rrs, e) ==> r == Got((rrs, e))
  {
    hide Tiles, ParseSection, Untiled;
    var r := ParseSection(question, m, p, count);
    UntiledExactly(question, m, p, count);
    if r.Got? {
      SectionTiles(question, m, p, count, r.value.0, r.value.1);
    }
    forall rrs, e | |rrs| == count && Tiles(question, m, p, rrs, e)
      ensures r == Got((rrs, e))
    {
      SectionTiles(question, m, p, count, rrs, e);
    }
  }

  // ------------------------------------------------------------- assertions

  /** Fewer than `count` records tile the message from `p` on, and the owner of the next one
      ends at the last octet. */
  ghost predicate OwnerEndsMessage(question: bool, m: seq<byte>, p: nat, count: nat) {
    exists rrs, e :: |rrs| < count && Tiles(question, m, p, rrs, e) && Skip(m, e) == Some(|m|)
  }

  lemma {:induction false} SectionAborts(question: bool, m: seq<byte>, p: nat, count: nat)
    ensures ParseSection(question, m, p, count).AssertFails? <==> OwnerEndsMessage(question, m, p, count)
    decreases count
  {
    hide Skip, At2, At4;
    if count > 0 {
      var one := ParseOne(question, m, p);
      if one.Got? {
        SectionAborts(question, m, one.value.1, count - 1);
        NextOwner(question, m, p, count);
      } else {
        NoRecord(question, m, p, count);
      }
    }
  }

  lemma NextOwner(question: bool, m: seq<byte>, p: nat, count: nat)
    requires count > 0 && ParseOne(question, m, p).Got?
    ensures OwnerEndsMessage(question, m, p, count)
       <==> OwnerEndsMessage(question, m, ParseOne(question, m, p).value.1, count - 1)
  {
    hide At2, At4;
    var (rr, q) := ParseOne(question, m, p).value;
    ParseOneCovers(question, m, p, rr, q);
    if OwnerEndsMessage(question, m, q, count - 1) {
      var rrs, e :| |rrs| < count - 1 && Tiles(question, m, q, rrs, e) && Skip(m, e) == Some(|m|);
      var all := [rr] + rrs;
      assert all[1..] == rrs;
      assert Tiles(question, m, p, all, e);
    }
    if OwnerEndsMessage(question, m, p, count) {
      var rrs, e :| |rrs| < count && Tiles(question, m, p, rrs, e) && Skip(m, e) == Some(|m|);
      if rrs != [] {
        ParseOneCovers(question, m, p, rrs[0], End(question, rrs[0]));
        assert Tiles(question, m, q, rrs[1..], e);
      }
    }
  }

  lemma NoRecord(question: bool, m: seq<byte>, p: nat, count: nat)
    requires count > 0 && !ParseOne(question, m, p).Got?
    ensures ParseOne(question, m, p).AssertFails? <==> OwnerEndsMessage(question, m, p, count)
  {
    if ParseOne(question, m, p).AssertFails? {
      assert Tiles(question, m, p, [], p);
    }
    if OwnerEndsMessage(question, m, p, count) {
      var rrs, e :| |rrs| < count && Tiles(question, m, p, rrs, e) && Skip(m, e) == Some(|m|);
      if rrs != [] {
        ParseOneCovers(question, m, p, rrs[0], End(question, rrs[0]));
      }
    }
  }

  /** Two sections one after the other are one longer section. */
  lemma {:induction false} SectionSplit(question: bool, m: seq<byte>, p: nat, x: nat, y: nat)
    ensures var r := ParseSection(question, m, p, x);
            ParseSection(question, m, p, x + y)
            == if r.Got? then Behind(r.value.0, ParseSection(question, m, r.value.1, y)) else r
    decreases x
  {
    hide ParseOne;
    if x > 0 {
      var one := ParseOne(question, m, p);
      if one.Got? {
        SectionSplit(question, m, one.value.1, x - 1, y);
        var r := ParseSection(question, m, one.value.1, x - 1);
        if r.Got? {
          BehindTwice([one.value.0], r.value.0, ParseSection(question, m, r.value.1, y));
        }
      }
    } else {
      BehindNothing(ParseSection(question, m, p, y));
    }
  }

  lemma BehindTwice(a: seq<Rr>, b: seq<Rr>, r: Parse<(seq<Rr>, nat)>)
    ensures Behind(a, Behind(b, r)) == Behind(a + b, r)
  {
    assert r.Got? ==> a + (b + r.value.0) == a + b + r.value.0;
  }

  lemma BehindNothing(r: Parse<(seq<Rr>, nat)>)
    ensures Behind([], r) == r
  {
    assert r.Got? ==> [] + r.value.0 == r.value.0;
  }

  lemma ThreeSections(m: seq<byte>, p: nat, x: nat, y: nat, z: nat)
    ensures ParseSection(false, m, p, x + y + z).AssertFails? <==>
            var an := ParseSection(false, m, p, x);
            || an.AssertFails?
            || (an.Got? && var ns := ParseSection(false, m, an.value.1, y);
                           ns.AssertFails? || (ns.Got? && ParseSection(false, m, ns.value.1, z).AssertFails?))
  {
    hide ParseSection;
    SectionSplit(false, m, p, x, y + z);
    assert x + (y + z) == x + y + z;
    var an := ParseSection(false, m, p, x);
    if an.Got? {
      SectionSplit(false, m, an.value.1, y, z);
    }
  }

  /** The questions `qs` are all there, up to `a`, and an owner behind them ends the message. */
  ghost predicate BehindQuestions(h: Header, m: seq<byte>, qs: seq<Rr>, a: nat) {
    && |qs| == h.qdcount && Tiles(true, m, MSG_HEADER, qs, a)
    && OwnerEndsMessage(false, m, a, h.ancount + h.nscount + h.arcount)
  }

  /** The parser aborts exactly when, behind records that tile the message so far, the owner of
      a record that is still to come ends at the last octet of the message. */
  lemma MessageAborts(h: Header, m: seq<byte>)
    requires |m| >= MSG_HEADER
    ensures ParseMessage(h, m).Aborted? <==>
            || OwnerEndsMessage(true, m, MSG_HEADER, h.qdcount)
            || (exists qs, a :: BehindQuestions(h, m, qs, a))
  {
    hide Tiles, ParseSection, OwnerEndsMessage;
    var qd := ParseSection(true, m, MSG_HEADER, h.qdcount);
    SectionAborts(true, m, MSG_HEADER, h.qdcount);
    if qd.Got? {
      var a := qd.value.1;
      SectionAborts(false, m, a, h.ancount + h.nscount + h.arcount);
      ThreeSections(m, a, h.ancount, h.nscount, h.arcount);
      SectionTiles(true, m, MSG_HEADER, h.qdcount, qd.value.0, a);
      assert OwnerEndsMessage(false, m, a, h.ancount + h.nscount + h.arcount) ==> BehindQuestions(h, m, qd.value.0, a);
    }
    if exists qs, a :: BehindQuestions(h, m, qs, a) {
      var qs, a :| BehindQuestions(h, m, qs, a);
      SectionTiles(true, m, MSG_HEADER, h.qdcount, qs, a);
    }
  }

  // --------------------------------------------------------------- round trip

  /** A record to be written: the owner in place, or its first labels and a pointer. */
  datatype Record = Record(labels: seq<Label>, pointer: Option<nat>, rtype: nat, qclass: nat, ttl: nat, rdata: seq<byte>)

  ghost predicate Writable(rec: Record) {
    && LabelsOk(rec.labels) && (rec.pointer.Some? ==> rec.pointer.value < 0x4000)
    && rec.rtype < 0x1_0000 && rec.qclass < 0x1_0000 && rec.ttl < 0x1_0000_0000 && |rec.rdata| < 0x1_0000
  }

  ghost function Owner(rec: Record): seq<byte>
    requires Writable(rec)
  {
    Body(rec.labels) + if rec.pointer.Some? then Pointer(rec.pointer.value) else [0]
  }

  ghost function Fixed(question: bool, rec: Record): seq<byte>
    requires Writable(rec)
  {
    if question then Unpack2(rec.rtype) + Unpack2(rec.qclass)
    else Unpack2(rec.rtype) + Unpack2(rec.qclass) + Unpack4(rec.ttl) + Unpack2(|rec.rdata|)
  }

  ghost function Written(question: bool, rec: Record): seq<byte>
    requires Writable(rec)
  {
    Owner(rec) + Fixed(question, rec) + if question then [] else rec.rdata
  }

  ghost predicate AllWritable(recs: seq<Record>) {
    forall i | 0 <= i < |recs| :: Writable(recs[i])
  }

  ghost function WrittenAll(question: bool, recs: seq<Record>): seq<byte>
    requires AllWritable(recs)
  {
    if recs == [] then [] else Written(question, recs[0]) + WrittenAll(question, recs[1..])
  }

  /** The parsed record has the fields that were written. */
  ghost predicate Reads(question: bool, m: seq<byte>, rr: Rr, rec: Record)
    requires Writable(rec)
  {
    && rr.owner + rr.ownerLen <= |m| && m[rr.owner..rr.owner + rr.ownerLen] == Owner(rec)
    && rr.rtype == rec.rtype && rr.qclass == rec.qclass
    && (!question ==>
          && rr.ttl == rec.ttl && rr.rdlength == |rec.rdata| && rr.rdata + rr.rdlength <= |m|
          && m[rr.rdata..rr.rdata + rr.rdlength] == rec.rdata)
  }

  lemma {:induction false} SkipInline(m: seq<byte>, p: nat, ls: seq<Label>)
    requires InlineAt(m, p, ls)
    ensures Skip(m, p) == Skip(m, p + |Body(ls)|)
    decreases |ls|
  {
    if ls != [] {
      assert ls == [ls[0]] + ls[1..];
      InlineSplit(m, p, [ls[0]], ls[1..]);
      InlineOne(m, p, ls[0]);
      SkipInline(m, p + 1 + |ls[0]|, ls[1..]);
    }
  }

  lemma SkipOwner(m: seq<byte>, p: nat, rec: Record)
    requires Writable(rec) && p + |Owner(rec)| <= |m| && m[p..p + |Owner(rec)|] == Owner(rec)
    ensures Skip(m, p) == Some(p + |Owner(rec)|)
  {
    var tail := if rec.pointer.Some? then Pointer(rec.pointer.value) else [0];
    SliceSplit(m, p, Body(rec.labels), tail);
    SkipInline(m, p, rec.labels);
    var e := p + |Body(rec.labels)|;
    assert m[e] == m[e..e + |tail|][0];
  }

  lemma ReadNumbers(m: seq<byte>, p: nat, x: nat, y: nat)
    ensures x < 0x1_0000 && p + 2 <= |m| && m[p..p + 2] == Unpack2(x) ==> At2(m, p) == x
    ensures y < 0x1_0000_0000 && p + 4 <= |m| && m[p..p + 4] == Unpack4(y) ==> At4(m, p) == y
  {
    PackUnpack(x, y, 0, 0, 0, 0);
    if p + 2 <= |m| {
      assert m[p..p + 2] == [m[p], m[p + 1]];
    }
    if p + 4 <= |m| {
      assert m[p..p + 4] == [m[p], m[p + 1], m[p + 2], m[p + 3]];
    }
  }

  lemma FixedFields(question: bool, m: seq<byte>, o: nat, rec: Record)
    requires Writable(rec) && o + |Fixed(question, rec)| <= |m|
    requires m[o..o + |Fixed(question, rec)|] == Fixed(question, rec)
    ensures |Fixed(question, rec)| == if question then 4 else 10
    ensures At2(m, o) == rec.rtype && At2(m, o + 2) == rec.qclass
    ensures !question ==> At4(m, o + 4) == rec.ttl && At2(m, o + 8) == |rec.rdata|
  {
    hide At2, At4, Unpack2, Unpack4;
    var t, c := Unpack2(rec.rtype), Unpack2(rec.qclass);
    if !question {
      var l, n := Unpack4(rec.ttl), Unpack2(|rec.rdata|);
      SliceSplit(m, o, t + c + l, n);
      SliceSplit(m, o, t + c, l);
      ReadNumbers(m, o + 4, 0, rec.ttl);
      ReadNumbers(m, o + 8, |rec.rdata|, 0);
    }
    SliceSplit(m, o, t, c);
    ReadNumbers(m, o, rec.rtype, 0);
    ReadNumbers(m, o + 2, rec.qclass, 0);
  }

  /** A written record is parsed back wherever it stands. */
  lemma ReadAt(question: bool, m: seq<byte>, p: nat, rec: Record)
    requires Writable(rec) && p + |Written(question, rec)| <= |m|
    requires m[p..p + |Written(question, rec)|] == Written(question, rec)
    ensures var r := ParseOne(question, m, p);
            r.Got? && r.value.1 == p + |Written(question, rec)| && Reads(question, m, r.value.0, rec)
  {
    hide Skip, Owner, At2, At4, Fixed;
    var o, f := p + |Owner(rec)|, Fixed(question, rec);
    var data := if question then [] else rec.rdata;
    SliceSplit(m, p, Owner(rec) + f, data);
    SliceSplit(m, p, Owner(rec), f);
    SkipOwner(m, p, rec);
    FixedFields(question, m, o, rec);
  }

  /** The parsed records are the written ones, one by one. */
  ghost predicate ReadsAll(question: bool, m: seq<byte>, rrs: seq<Rr>, recs: seq<Record>)
    requires AllWritable(recs)
  {
    |rrs| == |recs| && forall i | 0 <= i < |recs| :: Reads(question, m, rrs[i], recs[i])
  }

  lemma {:induction false} SectionReads(question: bool, m: seq<byte>, p: nat, recs: seq<Record>)
    requires AllWritable(recs) && p + |WrittenAll(question, recs)| <= |m|
    requires m[p..p + |WrittenAll(question, recs)|] == WrittenAll(question, recs)
    ensures var r := ParseSection(question, m, p, |recs|);
            r.Got? && r.value.1 == p + |WrittenAll(question, recs)| && ReadsAll(question, m, r.value.0, recs)
    decreases |recs|
  {
    hide Written, Reads, ParseOne;
    if recs != [] {
      var w := Written(question, recs[0]);
      SliceSplit(m, p, w, WrittenAll(question, recs[1..]));
      ReadAt(question, m, p, recs[0]);
      SectionReads(question, m, p + |w|, recs[1..]);
    }
  }

  ghost predicate Holds(question: bool, m: seq<byte>, p: nat, recs: seq<Record>, e: nat) {
    AllWritable(recs) && p <= e <= |m| && m[p..e] == WrittenAll(question, recs)
  }

  lemma MessageHolds(h: Header, m: seq<byte>, a: nat, b: nat, c: nat,
                     qd: seq<Record>, an: seq<Record>, ns: seq<Record>, ar: seq<Record>)
    requires Holds(true, m, MSG_HEADER, qd, a) && Holds(false, m, a, an, b)
    requires Holds(false, m, b, ns, c) && Holds(false, m, c, ar, |m|)
    requires |qd| == h.qdcount && |an| == h.ancount && |ns| == h.nscount && |ar| == h.arcount
    ensures var r := ParseMessage(h, m);
            && r.Good?
            && ReadsAll(true, m, r.parsed.question, qd) && ReadsAll(false, m, r.parsed.answer, an)
            && ReadsAll(false, m, r.parsed.authority, ns) && ReadsAll(false, m, r.parsed.additional, ar)
  {
    hide WrittenAll, ReadsAll, ParseSection, AllWritable;
    SectionReads(true, m, MSG_HEADER, qd);
    SectionReads(false, m, a, an);
    SectionReads(false, m, b, ns);
    SectionReads(false, m, c, ar);
  }

  ghost predicate Words(id: nat, flags: nat, qd: nat, an: nat, ns: nat, ar: nat) {
    id < 0x1_0000 && flags < 0x1_0000 && qd < 0x1_0000 && an < 0x1_0000 && ns < 0x1_0000 && ar < 0x1_0000
  }

  /** The header as section 4.1.1 of RFC 1035 has it: the id, the flags, and the numbers of
      questions, answers, authority and additional records. */
  ghost function HeaderOctets(id: nat, flags: nat, qd: nat, an: nat, ns: nat, ar: nat): (s: seq<byte>)
    requires Words(id, flags, qd, an, ns, ar)
    ensures |s| == 12
  {
    Unpack2(id) + Unpack2(flags) + Unpack2(qd) + Unpack2(an) + Unpack2(ns) + Unpack2(ar)
  }

  /** A header is read back from any message that starts with it, the response code from the
      last four bits of the flags. */
  lemma HeaderReads(id: nat, flags: nat, qd: nat, an: nat, ns: nat, ar: nat, rest: seq<byte>)
    requires Words(id, flags, qd, an, ns, ar)
    ensures ParseHeader(HeaderOctets(id, flags, qd, an, ns, ar) + rest)
         == Some(Header(id, flags, flags % 16, qd, an, ns, ar))
  {
    hide Unpack2, At2;
    var m := HeaderOctets(id, flags, qd, an, ns, ar) + rest;
    assert m[0..2] == Unpack2(id) && m[2..4] == Unpack2(flags) && m[4..6] == Unpack2(qd);
    assert m[6..8] == Unpack2(an) && m[8..10] == Unpack2(ns) && m[10..12] == Unpack2(ar);
    ReadNumbers(m, 0, id, 0);
    ReadNumbers(m, 2, flags, 0);
    ReadNumbers(m, 4, qd, 0);
    ReadNumbers(m, 6, an, 0);
    ReadNumbers(m, 8, ns, 0);
    ReadNumbers(m, 10, ar, 0);
    LowOctet(m);
  }

  lemma LowOctet(m: seq<byte>)
    requires |m| >= 4
    ensures m[3] % 16 == At2(m, 2) % 16
  {
  }

  lemma RecordsRead(h: Header, head: seq<byte>, qd: seq<Record>, an: seq<Record>, ns: seq<Record>, ar: seq<Record>)
    requires |head| == MSG_HEADER && AllWritable(qd) && AllWritable(an) && AllWritable(ns) && AllWritable(ar)
    requires |qd| == h.qdcount && |an| == h.ancount && |ns| == h.nscount && |ar| == h.arcount
    ensures var m := head + WrittenAll(true, qd) + WrittenAll(false, an) + WrittenAll(false, ns) + WrittenAll(false, ar);
            var r := ParseMessage(h, m);
            && r.Good?
            && ReadsAll(true, m, r.parsed.question, qd) && ReadsAll(false, m, r.parsed.answer, an)
            && ReadsAll(false, m, r.parsed.authority, ns) && ReadsAll(false, m, r.parsed.additional, ar)
  {
    hide WrittenAll, ReadsAll, ParseMessage, AllWritable;
    var q, a, n, d := WrittenAll(true, qd), WrittenAll(false, an), WrittenAll(false, ns), WrittenAll(false, ar);
    FiveParts(head, q, a, n, d);
    MessageHolds(h, head + q + a + n + d, |head + q|, |head + q + a|, |head + q + a + n|, qd, an, ns, ar);
  }

  /** A message made of a header with the numbers of its records, and of these records, is
      accepted, and gives them back, each in its section. */
  lemma MessageReads(id: nat, flags: nat, qd: seq<Record>, an: seq<Record>, ns: seq<Record>, ar: seq<Record>)
    requires Words(id, flags, |qd|, |an|, |ns|, |ar|)
    requires AllWritable(qd) && AllWritable(an) && AllWritable(ns) && AllWritable(ar)
    ensures var m := HeaderOctets(id, flags, |qd|, |an|, |ns|, |ar|)
                     + WrittenAll(true, qd) + WrittenAll(false, an) + WrittenAll(false, ns) + WrittenAll(false, ar);
            && ParseHeader(m) == Some(Header(id, flags, flags % 16, |qd|, |an|, |ns|, |ar|))
            && var r := ParseMessage(ParseHeader(m).value, m);
               && r.Good?
               && ReadsAll(true, m, r.parsed.question, qd) && ReadsAll(false, m, r.parsed.answer, an)
               && ReadsAll(false, m, r.parsed.authority, ns) && ReadsAll(false, m, r.parsed.additional, ar)
  {
    hide WrittenAll, ReadsAll, ParseMessage, ParseHeader, AllWritable, HeaderOctets;
    var head := HeaderOctets(id, flags, |qd|, |an|, |ns|, |ar|);
    var q, a, n, d := WrittenAll(true, qd), WrittenAll(false, an), WrittenAll(false, ns), WrittenAll(false, ar);
    HeaderReads(id, flags, |qd|, |an|, |ns|, |ar|, q + a + n + d);
    OneTail(head, q, a, n, d);
    RecordsRead(Header(id, flags, flags % 16, |qd|, |an|, |ns|, |ar|), head, qd, an, ns, ar);
  }

  lemma OneTail(head: seq<byte>, q: seq<byte>, a: seq<byte>, n: seq<byte>, d: seq<byte>)
    ensures head + q + a + n + d == head + (q + a + n + d)
  {
  }

  lemma FiveParts(head: seq<byte>, q: seq<byte>, a: seq<byte>, n: seq<byte>, d: seq<byte>)
    ensures var m := head + q + a + n + d;
            && m[|head|..|head| + |q|] == q
            && m[|head + q|..|head + q| + |a|] == a
            && m[|head + q + a|..|head + q + a| + |n|] == n
            && m[|head + q + a + n|..|head + q + a + n| + |d|] == d
  {
    Middle(head, q, a + n + d);
    Middle(head + q, a, n + d);
    Middle(head + q + a, n, d);
    Middle(head + q + a + n, d, []);
    var m := head + q + a + n + d;
    assert head + q + (a + n + d) == m && head + q + a + (n + d) == m && m + [] == m;
  }

  lemma Middle(pre: seq<byte>, x: seq<byte>, post: seq<byte>)
    ensures (pre + x + post)[|pre|..|pre| + |x|] == x
  {
  }
}
