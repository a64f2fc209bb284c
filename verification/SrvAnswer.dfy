/** The answer to an SRV query, from the parsed message to the list of entries. */
module SrvAnswer {
  import opened Bytes
  import Host
  import Message
  import NameBuffers
  import Names
  import NameText
  import Parser
  import opened SrvOrder
  import opened SrvWalk

  const TYPE_SRV := 33

  predicate IsSrv(rr: Message.Rr) {
    rr.qclass == Host.CLASS_IN && rr.rtype == TYPE_SRV
  }

  /** What an SRV record says; nothing when its data is malformed. */
  function SrvRecord(m: seq<byte>, rr: Message.Rr): Option<Record>
    requires rr.rdata + rr.rdlength <= |m|
  {
    match Parser.ParseRrSrv(m[rr.rdata..rr.rdata + rr.rdlength])
    case None => None
    case Some(d) => Some(Record(d.priority, d.weight, d.port, rr.ttl, d.target))
  }

  /** The record is an SRV record of class IN that says this, octet by octet (RFC 2782). */
  ghost predicate Says(m: seq<byte>, rr: Message.Rr, priority: nat, weight: nat, port: nat, ttl: nat, target: Host.Name)
    requires rr.rdata + rr.rdlength <= |m|
  {
    && rr.qclass == 1 && rr.rtype == 33 && ttl == rr.ttl
    && priority < 0x1_0000 && weight < 0x1_0000 && port < 0x1_0000
    && m[rr.rdata..rr.rdata + rr.rdlength] == Unpack2(priority) + Unpack2(weight) + Unpack2(port) + target
  }

  /** A record is read as what it says, when its target is a name in place and it has 7 to 261
      octets; what is malformed says nothing. */
  lemma SrvRecordIs(m: seq<byte>, rr: Message.Rr, r: Record)
    requires rr.rdata + rr.rdlength <= |m|
    ensures IsSrv(rr) && SrvRecord(m, rr) == Some(r) <==>
            && Says(m, rr, r.priority, r.weight, r.port, r.ttl, r.target)
            && 7 <= rr.rdlength <= 261 && exists a :: Parser.NameShape(a, r.target)
  {
    hide Parser.ParseRrSrv, Parser.NameShape, Unpack2;
    Parser.SrvOctets(m[rr.rdata..rr.rdata + rr.rdlength], Parser.SrvData(r.priority, r.weight, r.port, r.target));
  }

  /** A written SRV record, with its target in place, is read as it was written. */
  lemma WrittenSrv(m: seq<byte>, rr: Message.Rr, priority: nat, weight: nat, port: nat, ls: seq<Names.Label>)
    requires rr.rdata + rr.rdlength <= |m| && Names.LabelsOk(ls) && |Names.Wire(ls)| <= 255
    requires Says(m, rr, priority, weight, port, rr.ttl, Names.Wire(ls))
    ensures IsSrv(rr) && SrvRecord(m, rr) == Some(Record(priority, weight, port, rr.ttl, Names.Wire(ls)))
  {
    hide Parser.ParseRrSrv, Unpack2;
    Parser.SrvRoundTrip(priority, weight, port, ls);
  }

  datatype Collected = Records(list: seq<Record>) | Malformed | Failed

  /** Step 2: the SRV records of the answer, in order. One that belongs to another name or
      is malformed spoils the answer; one whose name cannot be expanded fails an assertion. */
  function Collect(m: seq<byte>, rrs: seq<Message.Rr>, name: Host.Name): Collected
    requires Host.InMessage(m, rrs)
  {
    if rrs == [] then Records([])
    else
      var n := |rrs| - 1;
      var rr := rrs[n];
      match Collect(m, rrs[..n], name)
      case Malformed => Malformed
      case Failed => Failed
      case Records(list) =>
        if !IsSrv(rr) then Records(list)
        else
          match NameText.Compare(m, rr.owner, name)
          case None => Failed
          case Some(same) =>
            if !same || SrvRecord(m, rr).None? then Malformed else Records(list + [SrvRecord(m, rr).value])
  }

  /** The records collected are those of the name, and all of them. */
  lemma {:induction false} CollectExact(m: seq<byte>, rrs: seq<Message.Rr>, name: Host.Name, r: Record)
    requires Host.InMessage(m, rrs) && Collect(m, rrs, name).Records?
    ensures forall i | 0 <= i < |rrs| && IsSrv(rrs[i]) ::
              NameText.Compare(m, rrs[i].owner, name) == Some(true) && SrvRecord(m, rrs[i]).Some?
    ensures r in Collect(m, rrs, name).list <==>
            exists i :: 0 <= i < |rrs| && Says(m, rrs[i], r.priority, r.weight, r.port, r.ttl, r.target)
  {
    hide NameText.Compare, SrvRecord, Says;
    if rrs != [] {
      var n := |rrs| - 1;
      CollectExact(m, rrs[..n], name, r);
      assert forall i | 0 <= i < n :: rrs[..n][i] == rrs[i];
      SaysRecord(m, rrs[n], r);
    }
  }

  /** They come once each, in the order of the answer: `at` is where the SRV records are. */
  lemma {:induction false} CollectInOrder(m: seq<byte>, rrs: seq<Message.Rr>, name: Host.Name) returns (at: seq<nat>)
    requires Host.InMessage(m, rrs) && Collect(m, rrs, name).Records?
    ensures var list := Collect(m, rrs, name).list;
            && |at| == |list| && Increasing(at)
            && (forall k | 0 <= k < |at| ::
                  at[k] < |rrs| && var r := list[k]; Says(m, rrs[at[k]], r.priority, r.weight, r.port, r.ttl, r.target))
            && (forall i | 0 <= i < |rrs| && rrs[i].qclass == 1 && rrs[i].rtype == 33 :: i in at)
  {
    hide NameText.Compare, SrvRecord, Says;
    at := [];
    if rrs != [] {
      var n := |rrs| - 1;
      at := CollectInOrder(m, rrs[..n], name);
      assert forall k | 0 <= k < |at| :: rrs[..n][at[k]] == rrs[at[k]];
      assert forall i | 0 <= i < n :: rrs[..n][i] == rrs[i];
      if IsSrv(rrs[n]) {
        SaysRecord(m, rrs[n], SrvRecord(m, rrs[n]).value);
        at := at + [n];
      }
    }
  }

  lemma SaysRecord(m: seq<byte>, rr: Message.Rr, r: Record)
    requires rr.rdata + rr.rdlength <= |m|
    ensures IsSrv(rr) && SrvRecord(m, rr) == Some(r) ==> Says(m, rr, r.priority, r.weight, r.port, r.ttl, r.target)
    ensures !IsSrv(rr) ==> !Says(m, rr, r.priority, r.weight, r.port, r.ttl, r.target)
    ensures IsSrv(rr) && SrvRecord(m, rr).Some? && Says(m, rr, r.priority, r.weight, r.port, r.ttl, r.target) ==>
              SrvRecord(m, rr) == Some(r)
  {
    hide SrvRecord, Unpack2;
    SrvRecordIs(m, rr, r);
    if IsSrv(rr) && SrvRecord(m, rr).Some? && Says(m, rr, r.priority, r.weight, r.port, r.ttl, r.target) {
      SrvRecordIs(m, rr, SrvRecord(m, rr).value);
      SaysOne(m, rr, r, SrvRecord(m, rr).value);
    }
  }

  lemma SaysOne(m: seq<byte>, rr: Message.Rr, r: Record, q: Record)
    requires rr.rdata + rr.rdlength <= |m|
    requires Says(m, rr, r.priority, r.weight, r.port, r.ttl, r.target)
    requires Says(m, rr, q.priority, q.weight, q.port, q.ttl, q.target)
    ensures r == q
  {
    hide Unpack2;
    var d := m[rr.rdata..rr.rdata + rr.rdlength];
    assert d[0..2] == Unpack2(r.priority) == Unpack2(q.priority);
    assert d[2..4] == Unpack2(r.weight) == Unpack2(q.weight);
    assert d[4..6] == Unpack2(r.port) == Unpack2(q.port);
    assert d[6..] == r.target == q.target;
    Unpack2Injective(r.priority, q.priority);
    Unpack2Injective(r.weight, q.weight);
    Unpack2Injective(r.port, q.port);
  }

  datatype Result = Fallback | Unavailable | ParseFailed | Aborted | Entries(list: seq<Entry>)

  /** The answer says that the service is not available: one SRV record, for this name, with
      the root as target. */
  predicate SaysUnavailable(h: Message.Header, m: seq<byte>, x: Message.Parsed, name: Host.Name)
    requires Host.InMessage(m, x.answer)
  {
    && h.ancount == 1 && |x.answer| == 1 && IsSrv(x.answer[0])
    && var r := SrvRecord(m, x.answer[0]);
       r.Some? && r.value.target == [0] && NameText.Compare(m, x.answer[0].owner, name) == Some(true)
  }

  /** Step 1: an answer of one SRV record may end the query at once. */
  function Special(h: Message.Header, m: seq<byte>, x: Message.Parsed, name: Host.Name): Option<Result>
    requires Host.InMessage(m, x.answer)
  {
    if h.ancount != 1 || |x.answer| != 1 || !IsSrv(x.answer[0]) then None
    else
      match SrvRecord(m, x.answer[0])
      case None => Some(ParseFailed)
      case Some(r) =>
        if r.target == [] || r.target[0] != 0 then None
        else if |r.target| != 1 then Some(ParseFailed)
        else
          match NameText.Compare(m, x.answer[0].owner, name)
          case None => Some(Aborted)
          case Some(same) => Some(if same then Unavailable else ParseFailed)
  }

  /** The outcome of steps 1 to 5, whatever is drawn. */
  ghost predicate Outcome(h: Message.Header, m: seq<byte>, x: Message.Parsed, name: Host.Name, opts: Host.Options,
                          draws: Draws, repaired: bool, r: Result)
    requires Host.InMessage(m, x.answer) && Host.InMessage(m, x.additional) && InRange(draws)
  {
    if h.rcode != 0 || h.ancount < 1 then r == Fallback
    else if Special(h, m, x, name).Some? then r == Special(h, m, x, name).value
    else
      match Collect(m, x.answer, name)
      case Malformed => r == ParseFailed
      case Failed => r == Aborted
      case Records(list) =>
        var order, additional := Weighted(Prioritized(list, repaired), draws, 0), Host.Meanings(m, x.additional);
        if Unresolved(order, additional, opts) then r == Aborted
        else r.Entries? && EntriesOf(order, additional, opts, r.list)
  }

  /** Whatever is drawn, the service is reported unavailable exactly for an answer without an
      error that says so. */
  lemma UnavailableExactly(h: Message.Header, m: seq<byte>, x: Message.Parsed, name: Host.Name, opts: Host.Options,
                           draws: Draws, repaired: bool, r: Result)
    requires Host.InMessage(m, x.answer) && Host.InMessage(m, x.additional) && InRange(draws)
    requires Outcome(h, m, x, name, opts, draws, repaired, r)
    ensures r.Unavailable? <==> h.rcode == 0 && SaysUnavailable(h, m, x, name)
  {
    hide NameText.Compare, SrvRecord, Weighted, Prioritized, Collect, Host.AddressesOf;
  }

  /** An SRV record of the answer that is not of the name, or malformed. */
  ghost predicate Spoils(m: seq<byte>, rr: Message.Rr, name: Host.Name)
    requires rr.rdata + rr.rdlength <= |m|
  {
    rr.qclass == 1 && rr.rtype == 33 && (NameText.Compare(m, rr.owner, name) != Some(true) || SrvRecord(m, rr).None?)
  }

  /** It is the first one. */
  ghost predicate FirstSpoils(m: seq<byte>, rrs: seq<Message.Rr>, name: Host.Name, i: int)
    requires Host.InMessage(m, rrs)
  {
    0 <= i < |rrs| && Spoils(m, rrs[i], name) && forall j | 0 <= j < i :: !Spoils(m, rrs[j], name)
  }

  lemma {:induction false} CollectFailsExactly(m: seq<byte>, rrs: seq<Message.Rr>, name: Host.Name)
    requires Host.InMessage(m, rrs)
    ensures var c := Collect(m, rrs, name);
            && (c.Records? <==> forall j | 0 <= j < |rrs| :: !Spoils(m, rrs[j], name))
            && (c.Failed? <==> exists i :: FirstSpoils(m, rrs, name, i) && NameText.Compare(m, rrs[i].owner, name).None?)
            && (c.Malformed? <==> exists i :: FirstSpoils(m, rrs, name, i) && NameText.Compare(m, rrs[i].owner, name).Some?)
  {
    hide NameText.Compare, SrvRecord;
    if rrs != [] {
      var n := |rrs| - 1;
      var prev := rrs[..n];
      CollectFailsExactly(m, prev, name);
      assert forall j | 0 <= j < n :: prev[j] == rrs[j];
      assert forall i | 0 <= i < n :: FirstSpoils(m, prev, name, i) <==> FirstSpoils(m, rrs, name, i);
      assert Collect(m, prev, name).Records? && Spoils(m, rrs[n], name) ==> FirstSpoils(m, rrs, name, n);
    }
  }

  /** An answer of one SRV record ends the query at once when it is malformed or has the root as
      its target. */
  lemma SpecialExactly(h: Message.Header, m: seq<byte>, x: Message.Parsed, name: Host.Name)
    requires Host.InMessage(m, x.answer) && h.ancount == |x.answer|
    ensures var s := Special(h, m, x, name);
            && (s.Some? <==>
                  && |x.answer| == 1 && IsSrv(x.answer[0])
                  && (SrvRecord(m, x.answer[0]).None? || SrvRecord(m, x.answer[0]).value.target == [0]))
            && (s.Some? ==>
                  s.value == if SrvRecord(m, x.answer[0]).None? then ParseFailed
                             else match NameText.Compare(m, x.answer[0].owner, name)
                                  case None => Aborted
                                  case Some(same) => if same then Unavailable else ParseFailed)
  {
    hide NameText.Compare, SrvRecord;
    if |x.answer| == 1 && SrvRecord(m, x.answer[0]).Some? {
      RootTarget(m, x.answer[0]);
      var t := SrvRecord(m, x.answer[0]).value.target;
      assert t == [0] <==> t[0] == 0;
    }
  }

  /** Why an answer gives no entries, whatever is drawn. Without a record or with an error it is
      asked for otherwise; the first SRV record that spoils it decides between a refusal and a
      failed assertion, but that a malformed one that is alone is refused in any case; then the
      service may be unavailable, or an address in the additional section fail an assertion. */
  lemma FailureExactly(h: Message.Header, m: seq<byte>, x: Message.Parsed, name: Host.Name, opts: Host.Options,
                       draws: Draws, repaired: bool, r: Result)
    requires Host.InMessage(m, x.answer) && Host.InMessage(m, x.additional) && InRange(draws)
    requires Outcome(h, m, x, name, opts, draws, repaired, r) && h.ancount == |x.answer|
    ensures r.Fallback? <==> h.rcode != 0 || x.answer == []
    ensures r.ParseFailed? <==>
            && h.rcode == 0
            && exists i :: FirstSpoils(m, x.answer, name, i)
                 && (NameText.Compare(m, x.answer[i].owner, name).Some?
                     || (|x.answer| == 1 && SrvRecord(m, x.answer[i]).None?))
    ensures r.Aborted? && (forall i | 0 <= i < |x.answer| :: !Spoils(m, x.answer[i], name)) ==>
              exists i :: 0 <= i < |x.answer| && IsSrv(x.answer[i]) && SrvRecord(m, x.answer[i]).Some?
                && Host.AddressesOf(Host.Meanings(m, x.additional), opts, SrvRecord(m, x.answer[i]).value.target).None?
    ensures h.rcode == 0 && (exists i :: FirstSpoils(m, x.answer, name, i)) ==> r.ParseFailed? || r.Aborted?
  {
    hide NameText.Compare, SrvRecord, Weighted, Prioritized, Collect, Host.AddressesOf, Host.Meanings, Special;
    CollectFailsExactly(m, x.answer, name);
    SpecialExactly(h, m, x, name);
    if Special(h, m, x, name).Some? {
      assert Spoils(m, x.answer[0], name) ==> FirstSpoils(m, x.answer, name, 0);
    }
    if r.Aborted? && (forall i | 0 <= i < |x.answer| :: !Spoils(m, x.answer[i], name)) && Special(h, m, x, name).None? {
      UnresolvedEntry(h, m, x, name, opts, draws, repaired, r);
      UnresolvedRecord(m, x, name, opts, draws, repaired);
    }
  }

  /** Some record has a target for which an address fails an assertion. */
  ghost predicate Unresolved(order: seq<Record>, additional: seq<Host.Rr>, opts: Host.Options) {
    exists k :: 0 <= k < |order| && Host.AddressesOf(additional, opts, order[k].target).None?
  }

  lemma UnresolvedEntry(h: Message.Header, m: seq<byte>, x: Message.Parsed, name: Host.Name, opts: Host.Options,
                        draws: Draws, repaired: bool, r: Result)
    requires Host.InMessage(m, x.answer) && Host.InMessage(m, x.additional) && InRange(draws)
    requires Outcome(h, m, x, name, opts, draws, repaired, r) && r.Aborted?
    requires Special(h, m, x, name).None? && Collect(m, x.answer, name).Records?
    ensures Unresolved(Weighted(Prioritized(Collect(m, x.answer, name).list, repaired), draws, 0),
                       Host.Meanings(m, x.additional), opts)
  {
    hide NameText.Compare, SrvRecord, Weighted, Prioritized, Collect, Host.AddressesOf, Host.Meanings, Special;
  }

  lemma UnresolvedRecord(m: seq<byte>, x: Message.Parsed, name: Host.Name, opts: Host.Options, draws: Draws, repaired: bool)
    requires Host.InMessage(m, x.answer) && Host.InMessage(m, x.additional) && InRange(draws)
    requires Collect(m, x.answer, name).Records?
    requires Unresolved(Weighted(Prioritized(Collect(m, x.answer, name).list, repaired), draws, 0),
                        Host.Meanings(m, x.additional), opts)
    ensures exists i :: 0 <= i < |x.answer| && IsSrv(x.answer[i]) && SrvRecord(m, x.answer[i]).Some?
              && Host.AddressesOf(Host.Meanings(m, x.additional), opts, SrvRecord(m, x.answer[i]).value.target).None?
  {
    hide NameText.Compare, SrvRecord, Weighted, Prioritized, Collect, Host.AddressesOf, Host.Meanings, Says;
    var list := Collect(m, x.answer, name).list;
    var order := Weighted(Prioritized(list, repaired), draws, 0);
    var k :| 0 <= k < |order| && Host.AddressesOf(Host.Meanings(m, x.additional), opts, order[k].target).None?;
    SameRecords(list, draws, repaired, order[k]);
    CollectExact(m, x.answer, name, order[k]);
    var r := order[k];
    var i :| 0 <= i < |x.answer| && Says(m, x.answer[i], r.priority, r.weight, r.port, r.ttl, r.target);
    SaysRecord(m, x.answer[i], r);
  }

  /** The entry that stands for an SRV record of the answer. */
  ghost predicate EntrySays(m: seq<byte>, rr: Message.Rr, e: Entry)
    requires rr.rdata + rr.rdlength <= |m|
  {
    Says(m, rr, e.priority, e.weight, e.port, e.ttl, e.target)
  }

  /** The record of the additional section holds the address of the name. */
  ghost predicate Holds(m: seq<byte>, rr: Message.Rr, opts: Host.Options, name: Host.Name, a: Host.Addr)
    requires rr.rdata + rr.rdlength <= |m|
  {
    && rr.qclass == 1 && Names.Expand(m, rr.owner, 255, 20) == Some(name)
    && (if a.family.Inet? then !opts.noInet && rr.rtype == 1 && rr.rdlength == 4
        else !opts.noInet6 && rr.rtype == 28 && rr.rdlength == 16)
    && a.octets == m[rr.rdata..rr.rdata + rr.rdlength]
  }

  /** The entries of an answer, in the octets of the message: each SRV record has its entry, each
      entry says what an SRV record says and has the addresses that the additional section holds
      for its target, and with the sort repaired they come in non-decreasing priority. */
  lemma EntriesSay(h: Message.Header, m: seq<byte>, x: Message.Parsed, name: Host.Name, opts: Host.Options,
                   draws: Draws, repaired: bool, r: Result)
    requires Host.InMessage(m, x.answer) && Host.InMessage(m, x.additional) && InRange(draws)
    requires Outcome(h, m, x, name, opts, draws, repaired, r) && r.Entries?
    ensures forall i | 0 <= i < |x.answer| && x.answer[i].qclass == 1 && x.answer[i].rtype == 33 ::
              exists e :: e in r.list && EntrySays(m, x.answer[i], e)
    ensures forall e | e in r.list :: exists i :: 0 <= i < |x.answer| && EntrySays(m, x.answer[i], e)
    ensures forall e, a | e in r.list ::
              a in e.addrs <==> exists j :: 0 <= j < |x.additional| && Holds(m, x.additional[j], opts, e.target, a)
    ensures repaired ==> forall i, j | 0 <= i < j < |r.list| :: r.list[i].priority <= r.list[j].priority
  {
    hide NameText.Compare, SrvRecord, Weighted, Prioritized, Collect, Host.AddressesOf, Host.Meanings, Says, Holds, Special;
    Gathered(h, m, x, name, opts, draws, repaired, r);
    var list := Collect(m, x.answer, name).list;
    var order := Weighted(Prioritized(list, repaired), draws, 0);
    forall i | 0 <= i < |x.answer| && x.answer[i].qclass == 1 && x.answer[i].rtype == 33
      ensures exists e :: e in r.list && EntrySays(m, x.answer[i], e)
    {
      var e := EntryFor(m, x, name, opts, draws, repaired, r.list, i);
    }
    forall k | 0 <= k < |r.list|
      ensures exists i :: 0 <= i < |x.answer| && EntrySays(m, x.answer[i], r.list[k])
    {
      CollectExact(m, x.answer, name, order[k]);
      SameRecords(list, draws, repaired, order[k]);
    }
    forall k, a | 0 <= k < |r.list|
      ensures a in r.list[k].addrs <==>
              exists j :: 0 <= j < |x.additional| && Holds(m, x.additional[j], opts, r.list[k].target, a)
    {
      HoldsAddress(m, x.additional, opts, r.list[k].target, a);
    }
    if repaired {
      OrderedList(list, draws);
    }
  }

  /** Entries come from the collected records only. */
  lemma Gathered(h: Message.Header, m: seq<byte>, x: Message.Parsed, name: Host.Name, opts: Host.Options,
                 draws: Draws, repaired: bool, r: Result)
    requires Host.InMessage(m, x.answer) && Host.InMessage(m, x.additional) && InRange(draws)
    requires Outcome(h, m, x, name, opts, draws, repaired, r) && r.Entries?
    ensures Collect(m, x.answer, name).Records?
    ensures EntriesOf(Weighted(Prioritized(Collect(m, x.answer, name).list, repaired), draws, 0),
                      Host.Meanings(m, x.additional), opts, r.list)
  {
    hide NameText.Compare, SrvRecord, Weighted, Prioritized, Collect, Host.AddressesOf, Host.Meanings, EntriesOf;
  }

  lemma OrderedList(list: seq<Record>, draws: Draws)
    requires InRange(draws)
    ensures var order := Weighted(Prioritized(list, true), draws, 0);
            forall i, j | 0 <= i < j < |order| :: order[i].priority <= order[j].priority
  {
    OrderedAnswer(list, draws);
  }

  lemma HoldsAddress(m: seq<byte>, rrs: seq<Message.Rr>, opts: Host.Options, name: Host.Name, a: Host.Addr)
    requires Host.InMessage(m, rrs) && Host.AddressesOf(Host.Meanings(m, rrs), opts, name).Some?
    ensures a in Host.AddressesOf(Host.Meanings(m, rrs), opts, name).value <==>
            exists j :: 0 <= j < |rrs| && Holds(m, rrs[j], opts, name, a)
  {
    hide Host.AddressesOf, Names.Expand;
    Host.AddressRecords(m, rrs, opts, name, a);
  }

  lemma EntryFor(m: seq<byte>, x: Message.Parsed, name: Host.Name, opts: Host.Options, draws: Draws, repaired: bool,
                 entries: seq<Entry>, i: nat) returns (e: Entry)
    requires Host.InMessage(m, x.answer) && Host.InMessage(m, x.additional) && InRange(draws)
    requires i < |x.answer| && IsSrv(x.answer[i]) && Collect(m, x.answer, name).Records?
    requires EntriesOf(Weighted(Prioritized(Collect(m, x.answer, name).list, repaired), draws, 0),
                       Host.Meanings(m, x.additional), opts, entries)
    ensures e in entries && EntrySays(m, x.answer[i], e)
  {
    hide NameText.Compare, SrvRecord, Weighted, Prioritized, Collect, Host.AddressesOf, Host.Meanings, Says;
    var list := Collect(m, x.answer, name).list;
    CollectExact(m, x.answer, name, Record(0, 0, 0, 0, []));
    var r := SrvRecord(m, x.answer[i]).value;
    SaysRecord(m, x.answer[i], r);
    CollectExact(m, x.answer, name, r);
    SameRecords(list, draws, repaired, r);
    var order := Weighted(Prioritized(list, repaired), draws, 0);
    var k :| 0 <= k < |order| && order[k] == r;
    e := entries[k];
  }

  method OnSrvAnswer(h: Message.Header, m: seq<byte>, x: Message.Parsed, name: Host.Name, opts: Host.Options,
                     draws: Draws, repaired: bool)
    returns (r: Result)
    requires Host.InMessage(m, x.answer) && Host.InMessage(m, x.additional) && InRange(draws)
    ensures Outcome(h, m, x, name, opts, draws, repaired, r)
  {
    hide NameText.Compare, Weighted, Prioritized, InRange;
    if h.rcode != 0 || h.ancount < 1 {
      return Fallback;
    }
    var special := OnlyRecord(h, m, x, name);
    if special.Some? {
      return special.value;
    }
    var collected := CollectRecords(m, x.answer, name);
    match collected {
      case Malformed => return ParseFailed;
      case Failed => return Aborted;
      case Records(list) =>
        var sorted := Sort(list, repaired);
        var weighted := Select(sorted, draws);
        var entries := BuildEntries(weighted, Host.Meanings(m, x.additional), opts);
        return if entries.Some? then Entries(entries.value) else Aborted;
    }
  }

  method OnlyRecord(h: Message.Header, m: seq<byte>, x: Message.Parsed, name: Host.Name) returns (r: Option<Result>)
    requires Host.InMessage(m, x.answer)
    ensures r == Special(h, m, x, name)
  {
    hide SrvRecord, NameText.Compare;
    if h.ancount != 1 || |x.answer| != 1 || !IsSrv(x.answer[0]) {
      return None;
    }
    var rr := x.answer[0];
    var data := SrvRecord(m, rr);
    if data.None? {
      return Some(ParseFailed);
    }
    RootTarget(m, rr);
    if data.value.target[0] != 0 {
      return None;
    }
    assert |data.value.target| == 1;
    var same := NameBuffers.DnameCompare(m, rr.owner, name);
    if same.None? {
      return Some(Aborted);
    }
    r := Some(if same.value then Unavailable else ParseFailed);
  }

  /** A target that starts with the terminator is the root and nothing else. */
  lemma RootTarget(m: seq<byte>, rr: Message.Rr)
    requires rr.rdata + rr.rdlength <= |m| && SrvRecord(m, rr).Some?
    ensures var t := SrvRecord(m, rr).value.target; |t| > 0 && (t[0] == 0 ==> |t| == 1)
  {
  }

  method CollectRecords(m: seq<byte>, rrs: seq<Message.Rr>, name: Host.Name) returns (c: Collected)
    requires Host.InMessage(m, rrs)
    ensures c == Collect(m, rrs, name)
  {
    hide SrvRecord, NameText.Compare;
    var list: seq<Record> := [];
    for i := 0 to |rrs|
      invariant Collect(m, rrs[..i], name) == Records(list)
    {
      assert rrs[..i + 1][..i] == rrs[..i];
      var rr := rrs[i];
      if IsSrv(rr) {
        var same := NameBuffers.DnameCompare(m, rr.owner, name);
        var record := SrvRecord(m, rr);
        if same.None? || !same.value || record.None? {
          CollectStops(m, rrs, name, i + 1);
          return if same.None? then Failed else Malformed;
        }
        list := list + [record.value];
      }
    }
    assert rrs[..|rrs|] == rrs;
    c := Records(list);
  }

  lemma {:induction false} CollectStops(m: seq<byte>, rrs: seq<Message.Rr>, name: Host.Name, i: nat)
    requires Host.InMessage(m, rrs) && i <= |rrs| && !Collect(m, rrs[..i], name).Records?
    ensures Collect(m, rrs, name) == Collect(m, rrs[..i], name)
    decreases |rrs| - i
  {
    hide SrvRecord, NameText.Compare;
    if i < |rrs| {
      assert rrs[..i + 1][..i] == rrs[..i];
      CollectStops(m, rrs, name, i + 1);
    } else {
      assert rrs[..i] == rrs;
    }
  }
}
