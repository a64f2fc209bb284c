/** Address lookup: the addresses of a name in an answer, through the CNAME records of the
    same answer, and the queries for AAAA and A that make up a lookup. */
module Host {
  import opened Bytes
  import opened Families
  import opened Limits
  import Message
  import Names
  import Parser

  type Name = seq<byte>    // in wire form

  datatype Addr = Addr(family: Family, octets: seq<byte>)

  /** What a record says. `sized`: the data has the size of the address. */
  datatype Data = Address(addr: Addr, sized: bool) | Alias(target: Option<Name>) | OtherData

  /** A record of the answer section; no owner means that its name cannot be expanded. */
  datatype Rr = Rr(inClass: bool, owner: Option<Name>, data: Data)

  datatype Options = Options(noInet: bool, noInet6: bool) {
    /** Not all families can be disabled. */
    predicate Ok() { !(noInet && noInet6) }

    predicate Enabled(f: Family) { if f.Inet? then !noInet else !noInet6 }
  }

  const TYPE_A := 1
  const TYPE_CNAME := 5
  const TYPE_AAAA := 28
  const CLASS_IN := 1

  /** The record the parser left at its positions in the message. */
  function Meaning(m: seq<byte>, rr: Message.Rr): Rr
    requires rr.rdata + rr.rdlength <= |m|
  {
    var octets := m[rr.rdata..rr.rdata + rr.rdlength];
    Rr(rr.qclass == CLASS_IN,
       Names.Expand(m, rr.owner, DNAME_ENCODED, COMPRESSION_DEPTH),
       if rr.rtype == TYPE_A then Address(Addr(Inet, octets), rr.rdlength == 4)
       else if rr.rtype == TYPE_AAAA then Address(Addr(Inet6, octets), rr.rdlength == 16)
       else if rr.rtype == TYPE_CNAME then Alias(Parser.ParseRrCname(m, rr.rdata))
       else OtherData)
  }

  /** Every record of an accepted message has its data in the message, so it has a meaning. */
  lemma AcceptedHasMeaning(h: Message.Header, m: seq<byte>, rrs: seq<Message.Rr>)
    requires Message.ParseMessage(h, m).Good?
    requires rrs == Message.ParseMessage(h, m).parsed.answer || rrs == Message.ParseMessage(h, m).parsed.additional
    ensures InMessage(m, rrs)
  {
    hide Message.Tiles;
    var x := Message.ParseMessage(h, m).parsed;
    Message.MessageTiles(h, m, x);
    var a, b, c :| Message.TilesMessage(m, x, a, b, c);
    forall i | 0 <= i < |rrs|
      ensures rrs[i].rdata + rrs[i].rdlength <= |m|
    {
      if rrs == x.answer {
        Message.TilesInside(false, m, a, rrs, b, i);
      } else {
        Message.TilesInside(false, m, c, rrs, |m|, i);
      }
    }
  }

  predicate InMessage(m: seq<byte>, rrs: seq<Message.Rr>) {
    forall i | 0 <= i < |rrs| :: rrs[i].rdata + rrs[i].rdlength <= |m|
  }

  function Meanings(m: seq<byte>, rrs: seq<Message.Rr>): (r: seq<Rr>)
    requires InMessage(m, rrs)
    ensures |r| == |rrs| && forall i | 0 <= i < |rrs| :: r[i] == Meaning(m, rrs[i])
  {
    seq(|rrs|, i requires 0 <= i < |rrs| => Meaning(m, rrs[i]))
  }

  /** The options are good exactly when some family is enabled. */
  lemma SomeFamily(opts: Options)
    ensures opts.Ok() <==> exists f :: opts.Enabled(f)
  {
    assert opts.Enabled(Inet) || opts.Enabled(Inet6) || !opts.Ok();
  }

  // ------------------------------------------------------------- one answer

  predicate WantedAddress(opts: Options, rr: Rr) {
    rr.inClass && rr.data.Address? && opts.Enabled(rr.data.addr.family)
  }

  /** The addresses of the name, in record order; nothing if an assertion fails on the way. */
  function AddressesOf(rrs: seq<Rr>, opts: Options, name: Name): Option<seq<Addr>> {
    if rrs == [] then Some([])
    else
      var n := |rrs| - 1;
      var rr := rrs[n];
      match AddressesOf(rrs[..n], opts, name)
      case None => None
      case Some(list) =>
        if !WantedAddress(opts, rr) then Some(list)
        else if rr.owner.None? then None
        else if rr.owner.value != name then Some(list)
        else if !rr.data.sized then None
        else Some(list + [rr.data.addr])
  }

  datatype Next = NoAlias | AliasTo(name: Name) | AliasBad | AliasFailed

  /** The first CNAME record of the name. */
  function FirstAlias(rrs: seq<Rr>, name: Name, i: nat): Next
    requires i <= |rrs|
    decreases |rrs| - i
  {
    if i == |rrs| then NoAlias
    else
      var rr := rrs[i];
      if !rr.inClass || !rr.data.Alias? then FirstAlias(rrs, name, i + 1)
      else if rr.owner.None? then AliasFailed
      else if rr.owner.value != name then FirstAlias(rrs, name, i + 1)
      else if rr.data.target.None? then AliasBad
      else AliasTo(rr.data.target.value)
  }

  datatype Found = Addresses(list: seq<Addr>) | Nothing | TooDeep | BadAlias | Failed

  /** The addresses of the name or, if it has none, of the name it is an alias of. */
  function Follow(rrs: seq<Rr>, opts: Options, name: Name, depth: nat): Found
    decreases depth
  {
    match AddressesOf(rrs, opts, name)
    case None => Failed
    case Some(list) =>
      if list != [] then Addresses(list)
      else
        match FirstAlias(rrs, name, 0)
        case NoAlias => Nothing
        case AliasFailed => Failed
        case AliasBad => BadAlias
        case AliasTo(target) => if depth == 0 then TooDeep else Follow(rrs, opts, target, depth - 1)
  }

  // --------------------------------------------------------- chains of aliases

  /** An alias record of the name, or one whose owner is not known. */
  ghost predicate MayAlias(rr: Rr, name: Name) {
    rr.inClass && rr.data.Alias? && (rr.owner.None? || rr.owner.value == name)
  }

  /** Record `i` is the first of them. */
  ghost predicate FirstMay(rrs: seq<Rr>, name: Name, i: int) {
    0 <= i < |rrs| && MayAlias(rrs[i], name) && forall j | 0 <= j < i :: !MayAlias(rrs[j], name)
  }

  /** The first alias record of the name points to `target`. */
  ghost predicate AliasOf(rrs: seq<Rr>, name: Name, target: Name) {
    exists i :: FirstMay(rrs, name, i) && rrs[i].owner == Some(name) && rrs[i].data.target == Some(target)
  }

  ghost predicate Unaliased(rrs: seq<Rr>, name: Name) {
    forall i | 0 <= i < |rrs| :: !MayAlias(rrs[i], name)
  }

  /** The first record that may be an alias has no owner, or no target. */
  ghost predicate AliasUnknown(rrs: seq<Rr>, name: Name) {
    exists i :: FirstMay(rrs, name, i) && rrs[i].owner.None?
  }

  ghost predicate AliasBroken(rrs: seq<Rr>, name: Name) {
    exists i :: FirstMay(rrs, name, i) && rrs[i].owner == Some(name) && rrs[i].data.target.None?
  }

  lemma {:induction false} FirstAliasFrom(rrs: seq<Rr>, name: Name, i: nat)
    requires i <= |rrs| && forall j | 0 <= j < i :: !MayAlias(rrs[j], name)
    ensures var n := FirstAlias(rrs, name, i);
            if n.NoAlias? then Unaliased(rrs, name)
            else exists k :: FirstMay(rrs, name, k) && n == (if rrs[k].owner.None? then AliasFailed
                                                             else if rrs[k].data.target.None? then AliasBad
                                                             else AliasTo(rrs[k].data.target.value))
    decreases |rrs| - i
  {
    if i < |rrs| {
      if MayAlias(rrs[i], name) {
        assert FirstMay(rrs, name, i);
      } else {
        FirstAliasFrom(rrs, name, i + 1);
      }
    }
  }

  /** The scan for an alias ends at the first record that may be one, and says what it is. */
  lemma FirstAliasExactly(rrs: seq<Rr>, name: Name, target: Name)
    ensures var n := FirstAlias(rrs, name, 0);
            && (n.NoAlias? <==> Unaliased(rrs, name))
            && (n == AliasTo(target) <==> AliasOf(rrs, name, target))
            && (n.AliasBad? <==> AliasBroken(rrs, name))
            && (n.AliasFailed? <==> AliasUnknown(rrs, name))
  {
    hide FirstAlias;
    var n := FirstAlias(rrs, name, 0);
    FirstAliasFrom(rrs, name, 0);
    if !n.NoAlias? {
      var k :| FirstMay(rrs, name, k) && n == (if rrs[k].owner.None? then AliasFailed
                                               else if rrs[k].data.target.None? then AliasBad
                                               else AliasTo(rrs[k].data.target.value));
      assert forall i | FirstMay(rrs, name, i) :: !(i < k) && !(k < i);
      assert !Unaliased(rrs, name);
    }
  }

  /** Each name is the alias of the next one, and none but the last has an address. */
  ghost predicate Chain(rrs: seq<Rr>, opts: Options, name: Name, names: seq<Name>) {
    && names != [] && names[0] == name
    && forall k | 0 <= k < |names| - 1 ::
         AddressesOf(rrs, opts, names[k]) == Some([]) && AliasOf(rrs, names[k], names[k + 1])
  }

  /** What is found at the last name of a chain; `deep`: no further alias may be followed. */
  ghost predicate Ends(rrs: seq<Rr>, opts: Options, name: Name, deep: bool, found: Found) {
    match AddressesOf(rrs, opts, name)
    case None => found.Failed?
    case Some(list) =>
      if list != [] then found == Addresses(list)
      else
        || (found.Nothing? && Unaliased(rrs, name))
        || (found.Failed? && AliasUnknown(rrs, name))
        || (found.BadAlias? && AliasBroken(rrs, name))
        || (found.TooDeep? && deep && exists target :: AliasOf(rrs, name, target))
  }

  ghost predicate EndsAt(rrs: seq<Rr>, opts: Options, name: Name, depth: nat, found: Found, names: seq<Name>) {
    && Chain(rrs, opts, name, names) && |names| <= depth + 1
    && Ends(rrs, opts, names[|names| - 1], |names| == depth + 1, found)
  }

  lemma ChainFirst(rrs: seq<Rr>, opts: Options, name: Name, target: Name, names: seq<Name>)
    requires AddressesOf(rrs, opts, name) == Some([]) && AliasOf(rrs, name, target)
    ensures Chain(rrs, opts, target, names) ==> Chain(rrs, opts, name, [name] + names)
    ensures Chain(rrs, opts, name, names) && |names| > 1 ==> Chain(rrs, opts, target, names[1..])
  {
    hide AliasOf;
    var n := FirstAlias(rrs, name, 0);
    FirstAliasExactly(rrs, name, target);
    if Chain(rrs, opts, target, names) {
      var all := [name] + names;
      forall k | 0 <= k < |all| - 1
        ensures AddressesOf(rrs, opts, all[k]) == Some([]) && AliasOf(rrs, all[k], all[k + 1])
      {
        if k > 0 { assert all[k] == names[k - 1] && all[k + 1] == names[k]; }
      }
    }
    if Chain(rrs, opts, name, names) && |names| > 1 {
      FirstAliasExactly(rrs, name, names[1]);
      assert AliasOf(rrs, names[0], names[0 + 1]);
      forall k | 0 <= k < |names[1..]| - 1
        ensures AddressesOf(rrs, opts, names[1..][k]) == Some([]) && AliasOf(rrs, names[1..][k], names[1..][k + 1])
      {
        assert names[1..][k] == names[k + 1] && names[1..][k + 1] == names[k + 2];
      }
    }
  }

  /** The result is what stands at the end of the chain of aliases of the name, no more than
      `depth` of them. */
  lemma {:induction false} FollowExactly(rrs: seq<Rr>, opts: Options, name: Name, depth: nat, found: Found)
    ensures Follow(rrs, opts, name, depth) == found <==> exists names :: EndsAt(rrs, opts, name, depth, found, names)
    decreases depth
  {
    hide AddressesOf, FirstAlias, AliasOf, AliasUnknown, AliasBroken, Unaliased;
    var own, n := AddressesOf(rrs, opts, name), FirstAlias(rrs, name, 0);
    var target := if n.AliasTo? then n.name else [];
    FirstAliasExactly(rrs, name, target);
    if own == Some([]) && n.AliasTo? && depth > 0 {
      FollowExactly(rrs, opts, target, depth - 1, found);
      if Follow(rrs, opts, target, depth - 1) == found {
        var names :| EndsAt(rrs, opts, target, depth - 1, found, names);
        ChainFirst(rrs, opts, name, target, names);
        assert EndsAt(rrs, opts, name, depth, found, [name] + names);
      }
      forall names | EndsAt(rrs, opts, name, depth, found, names)
        ensures EndsAt(rrs, opts, target, depth - 1, found, names[1..])
      {
        ChainFirst(rrs, opts, name, target, names);
      }
    } else {
      FollowHere(rrs, opts, name, depth, found);
    }
  }

  lemma FollowHere(rrs: seq<Rr>, opts: Options, name: Name, depth: nat, found: Found)
    requires AddressesOf(rrs, opts, name) != Some([]) || !FirstAlias(rrs, name, 0).AliasTo? || depth == 0
    ensures Follow(rrs, opts, name, depth) == found <==> exists names :: EndsAt(rrs, opts, name, depth, found, names)
  {
    hide AddressesOf, FirstAlias, AliasOf, AliasUnknown, AliasBroken, Unaliased;
    var n := FirstAlias(rrs, name, 0);
    FirstAliasExactly(rrs, name, if n.AliasTo? then n.name else []);
    assert Chain(rrs, opts, name, [name]);
    if Follow(rrs, opts, name, depth) == found {
      assert EndsAt(rrs, opts, name, depth, found, [name]);
    }
    forall names | EndsAt(rrs, opts, name, depth, found, names)
      ensures Follow(rrs, opts, name, depth) == found
    {
      if |names| > 1 {
        assert AliasOf(rrs, names[0], names[0 + 1]);
        FirstAliasExactly(rrs, name, names[1]);
      }
      forall target | AliasOf(rrs, name, target)
        ensures n == AliasTo(target)
      {
        FirstAliasExactly(rrs, name, target);
      }
    }
  }

  /** The addresses returned are exactly those of the first name on the alias chain that has
      any, when it is at most `depth` steps away. */
  lemma FollowFinds(rrs: seq<Rr>, opts: Options, name: Name, depth: nat, list: seq<Addr>)
    ensures Follow(rrs, opts, name, depth) == Addresses(list) <==>
            list != [] && exists names :: Chain(rrs, opts, name, names) && |names| <= depth + 1
                                          && AddressesOf(rrs, opts, names[|names| - 1]) == Some(list)
  {
    hide AddressesOf, Follow, Chain;
    FollowExactly(rrs, opts, name, depth, Addresses(list));
    forall names | Chain(rrs, opts, name, names)
      ensures names != []
    {
      ChainStarts(rrs, opts, name, names);
    }
    if Follow(rrs, opts, name, depth) == Addresses(list) {
      var names :| EndsAt(rrs, opts, name, depth, Addresses(list), names);
      assert Chain(rrs, opts, name, names);
    }
    forall names | list != [] && Chain(rrs, opts, name, names) && |names| <= depth + 1
                   && AddressesOf(rrs, opts, names[|names| - 1]) == Some(list)
      ensures EndsAt(rrs, opts, name, depth, Addresses(list), names)
    {
    }
  }

  lemma ChainStarts(rrs: seq<Rr>, opts: Options, name: Name, names: seq<Name>)
    requires Chain(rrs, opts, name, names)
    ensures names != []
  {
  }

  /** A chain of aliases that goes on without an address is given up, cycles included. */
  lemma FollowTooDeep(rrs: seq<Rr>, opts: Options, name: Name, depth: nat)
    ensures Follow(rrs, opts, name, depth) == TooDeep <==>
            exists names :: Chain(rrs, opts, name, names) && |names| == depth + 2
  {
    hide AddressesOf, Follow, AliasOf, AliasUnknown, AliasBroken, Unaliased;
    FollowExactly(rrs, opts, name, depth, TooDeep);
    if Follow(rrs, opts, name, depth) == TooDeep {
      var names :| EndsAt(rrs, opts, name, depth, TooDeep, names);
      var target :| AliasOf(rrs, names[|names| - 1], target);
      var all := names + [target];
      forall k | 0 <= k < |all| - 1
        ensures AddressesOf(rrs, opts, all[k]) == Some([]) && AliasOf(rrs, all[k], all[k + 1])
      {
        if k < |names| - 1 { assert all[k] == names[k] && all[k + 1] == names[k + 1]; }
      }
      assert Chain(rrs, opts, name, all);
    }
    forall names | Chain(rrs, opts, name, names) && |names| == depth + 2
      ensures EndsAt(rrs, opts, name, depth, TooDeep, names[..depth + 1])
    {
      assert AliasOf(rrs, names[depth], names[depth + 1]);
    }
  }

  /** Every address returned stands in a record of the name, of an enabled family. */
  lemma {:induction false} AddressesOwned(rrs: seq<Rr>, opts: Options, name: Name, a: Addr)
    requires AddressesOf(rrs, opts, name).Some?
    ensures a in AddressesOf(rrs, opts, name).value <==>
            exists i :: 0 <= i < |rrs| && WantedAddress(opts, rrs[i]) && rrs[i].owner == Some(name) && rrs[i].data.addr == a
  {
    if rrs != [] {
      var n := |rrs| - 1;
      AddressesOwned(rrs[..n], opts, name, a);
      assert forall i | 0 <= i < n :: rrs[..n][i] == rrs[i];
    }
  }

  /** Records one after the other: their addresses one after the other. */
  lemma {:induction false} AddressesAppend(a: seq<Rr>, b: seq<Rr>, opts: Options, name: Name)
    requires AddressesOf(a, opts, name).Some? && AddressesOf(b, opts, name).Some?
    ensures AddressesOf(a + b, opts, name) == Some(AddressesOf(a, opts, name).value + AddressesOf(b, opts, name).value)
    decreases |b|
  {
    hide WantedAddress;
    var x, n := AddressesOf(a, opts, name).value, |b| - 1;
    if b == [] {
      assert a + b == a && AddressesOf(b, opts, name) == Some([]) && x + [] == x;
    } else {
      AddressesAppend(a, b[..n], opts, name);
      var all, y := a + b, AddressesOf(b[..n], opts, name).value;
      assert b[n].data.Address? ==> x + (y + [b[n].data.addr]) == x + y + [b[n].data.addr];
      assert all[..|all| - 1] == a + b[..n] && all[|all| - 1] == b[n];
      hide AddressesOf;
      AddressesLast(all, opts, name);
      AddressesLast(b, opts, name);
    }
  }

  /** The last record adds its own address, or nothing. */
  lemma AddressesLast(rrs: seq<Rr>, opts: Options, name: Name)
    requires rrs != []
    ensures var rr, prev := rrs[|rrs| - 1], AddressesOf(rrs[..|rrs| - 1], opts, name);
            if prev.None? then AddressesOf(rrs, opts, name).None?
            else if !WantedAddress(opts, rr) || (rr.owner.Some? && rr.owner.value != name) then
              AddressesOf(rrs, opts, name) == prev
            else if rr.owner.None? || !rr.data.sized then AddressesOf(rrs, opts, name).None?
            else AddressesOf(rrs, opts, name) == Some(prev.value + [rr.data.addr])
  {
  }

  /** An assertion fails exactly for a wanted record whose owner cannot be expanded, or of the
      name and of another size. */
  lemma {:induction false} AddressesFailExactly(rrs: seq<Rr>, opts: Options, name: Name)
    ensures AddressesOf(rrs, opts, name).None? <==>
            exists i :: 0 <= i < |rrs| && WantedAddress(opts, rrs[i])
                        && (rrs[i].owner.None? || (rrs[i].owner == Some(name) && !rrs[i].data.sized))
  {
    if rrs != [] {
      var n := |rrs| - 1;
      AddressesFailExactly(rrs[..n], opts, name);
      assert forall i | 0 <= i < n :: rrs[..n][i] == rrs[i];
    }
  }

  /** In the terms of the message: an address is returned exactly for a record of class IN and
      of the type and size of its family, which is not disabled, whose owner is the name. */
  lemma AddressRecords(m: seq<byte>, rrs: seq<Message.Rr>, opts: Options, name: Name, a: Addr)
    requires InMessage(m, rrs) && AddressesOf(Meanings(m, rrs), opts, name).Some?
    ensures a in AddressesOf(Meanings(m, rrs), opts, name).value <==>
            exists i :: 0 <= i < |rrs| && rrs[i].qclass == 1 && Names.Expand(m, rrs[i].owner, 255, 20) == Some(name)
                        && (if a.family.Inet? then !opts.noInet && rrs[i].rtype == 1 && rrs[i].rdlength == 4
                            else !opts.noInet6 && rrs[i].rtype == 28 && rrs[i].rdlength == 16)
                        && a.octets == m[rrs[i].rdata..rrs[i].rdata + rrs[i].rdlength]
  {
    hide AddressesOf, Names.Expand;
    var means := Meanings(m, rrs);
    AddressesOwned(means, opts, name, a);
    AddressesFailExactly(means, opts, name);
    forall i | 0 <= i < |rrs|
      ensures means[i] == Meaning(m, rrs[i])
    {
    }
  }

  /** A record may be an alias of the name exactly when it is a CNAME record of class IN of that
      owner, or of one that cannot be expanded. */
  lemma AliasRecord(m: seq<byte>, rr: Message.Rr, name: Name)
    requires rr.rdata + rr.rdlength <= |m|
    ensures var owner := Names.Expand(m, rr.owner, 255, 20);
            && (MayAlias(Meaning(m, rr), name) <==>
                  rr.qclass == 1 && rr.rtype == 5 && (owner.None? || owner.value == name))
            && Meaning(m, rr).owner == owner
            && (rr.rtype == 5 ==> Meaning(m, rr).data == Alias(Names.Expand(m, rr.rdata, 255, 20)))
  {
    hide Names.Expand;
  }

  lemma FollowEnabled(rrs: seq<Rr>, opts: Options, name: Name, depth: nat)
    requires Follow(rrs, opts, name, depth).Addresses?
    ensures var list := Follow(rrs, opts, name, depth).list;
            list != [] && forall a | a in list :: opts.Enabled(a.family)
  {
    var list := Follow(rrs, opts, name, depth).list;
    FollowFinds(rrs, opts, name, depth, list);
    var names :| Chain(rrs, opts, name, names) && AddressesOf(rrs, opts, names[|names| - 1]) == Some(list);
    forall a | a in list
      ensures opts.Enabled(a.family)
    {
      AddressesOwned(rrs, opts, names[|names| - 1], a);
    }
  }

  // ---------------------------------------------------------------- a lookup

  datatype Code = CodeVoid | CodeOk | CodeAlarm | CodeQuery | CodeParse | CodeEmpty | CodeRcode | CodeCname

  /** The outcome of an underlying query, asked for name `asked`. */
  datatype Answer =
    | NoAnswer(timeout: bool)
    | Answer(asked: Name, rcode: nat, records: Option<seq<Rr>>)

  datatype Lookup = Lookup(qType: Family, addrs: seq<Addr>, code: Code, queries: nat)

  /** AAAA is asked first, unless it is disabled. */
  function Started(opts: Options): Lookup {
    Lookup(if opts.noInet6 then Inet else Inet6, [], CodeVoid, 1)
  }

  predicate NeedsA(qType: Family, opts: Options) {
    qType.Inet6? && !opts.noInet
  }

  /** `starts`: whether a second query can be submitted. */
  function AskA(l: Lookup, starts: bool): Lookup {
    if starts then l.(qType := Inet, queries := l.queries + 1) else l.(qType := Inet, code := CodeQuery)
  }

  /** The reaction to an answer; nothing if an assertion fails. */
  function OnAnswer(l: Lookup, opts: Options, depth: nat, answer: Answer, starts: bool): Option<Lookup> {
    match answer
    case NoAnswer(timeout) => Some(l.(code := if timeout then CodeAlarm else CodeQuery))
    case Answer(asked, rcode, records) =>
      if rcode != 0 then
        Some(if NeedsA(l.qType, opts) then AskA(l, starts) else l.(code := CodeRcode))
      else if records.None? then Some(l.(code := CodeParse))
      else
        match Follow(records.value, opts, asked, depth)
        case Failed => None
        case BadAlias => Some(l.(code := CodeParse))
        case TooDeep => Some(l.(code := CodeCname))
        case Addresses(list) =>
          var l1 := l.(addrs := l.addrs + list);
          Some(if NeedsA(l.qType, opts) then AskA(l1, starts) else l1.(code := CodeOk))
        case Nothing =>
          Some(if NeedsA(l.qType, opts) then AskA(l, starts)
               else l.(code := if l.addrs != [] then CodeOk else CodeEmpty))
  }

  /** A lookup that was given one answer after the other, until it has a result. */
  ghost function After(opts: Options, depth: nat, answers: seq<(Answer, bool)>): Option<Lookup> {
    if answers == [] then Some(Started(opts))
    else
      match After(opts, depth, answers[..|answers| - 1])
      case None => None
      case Some(l) =>
        if l.code != CodeVoid then Some(l)
        else
          var (answer, starts) := answers[|answers| - 1];
          OnAnswer(l, opts, depth, answer, starts)
  }

  /** The addresses an answer contributes. */
  ghost function Contributes(opts: Options, depth: nat, answer: Answer): seq<Addr> {
    if answer.Answer? && answer.rcode == 0 && answer.records.Some? then
      var found := Follow(answer.records.value, opts, answer.asked, depth);
      if found.Addresses? then found.list else []
    else []
  }

  /** What holds after every number of answers: at most two queries, the second one for A
      and only after one for AAAA; addresses of enabled families; a result only with a
      reason, and CodeOk exactly with an address. */
  ghost predicate LookupOk(opts: Options, l: Lookup) {
    && 1 <= l.queries <= 2
    && (l.queries == 2 ==> l.qType.Inet? && !opts.noInet && !opts.noInet6)
    && (l.queries == 1 && l.code == CodeVoid ==> l == Started(opts))
    && (l.code == CodeOk ==> l.addrs != [])
    && (l.code == CodeEmpty ==> l.addrs == [])
    && (forall a | a in l.addrs :: opts.Enabled(a.family))
  }

  lemma OnAnswerOk(l: Lookup, opts: Options, depth: nat, answer: Answer, starts: bool)
    requires opts.Ok() && LookupOk(opts, l) && l.code == CodeVoid && OnAnswer(l, opts, depth, answer, starts).Some?
    ensures var r := OnAnswer(l, opts, depth, answer, starts).value;
            && LookupOk(opts, r)
            && (l.queries == 2 ==> r.code != CodeVoid)
            && r.addrs == l.addrs + Contributes(opts, depth, answer)
  {
    if answer.Answer? && answer.rcode == 0 && answer.records.Some?
       && Follow(answer.records.value, opts, answer.asked, depth).Addresses? {
      FollowEnabled(answer.records.value, opts, answer.asked, depth);
    }
  }

  lemma {:induction false} AfterOk(opts: Options, depth: nat, answers: seq<(Answer, bool)>)
    requires opts.Ok() && After(opts, depth, answers).Some?
    ensures var l := After(opts, depth, answers).value;
            && LookupOk(opts, l)
            && (|answers| >= 2 ==> l.code != CodeVoid)
            && (l.code == CodeVoid ==> l.queries == |answers| + 1)
            && (answers == [] ==> l.code == CodeVoid && l.addrs == [] && (l.qType.Inet6? <==> !opts.noInet6))
  {
    if answers != [] {
      var prev := answers[..|answers| - 1];
      AfterOk(opts, depth, prev);
      var l := After(opts, depth, prev).value;
      if l.code == CodeVoid {
        var (answer, starts) := answers[|answers| - 1];
        OnAnswerOk(l, opts, depth, answer, starts);
      }
    }
  }

  /** Why a lookup has a result: each code exactly for its reason. `more`: the AAAA addresses
      were asked for, and the A ones are still to be. */
  lemma ResultReasons(l: Lookup, opts: Options, depth: nat, answer: Answer, starts: bool)
    requires l.code == CodeVoid && OnAnswer(l, opts, depth, answer, starts).Some?
    ensures var r, more := OnAnswer(l, opts, depth, answer, starts).value, l.qType.Inet6? && !opts.noInet;
            var read := answer.Answer? && answer.rcode == 0 && answer.records.Some?;
            var found := if read then Follow(answer.records.value, opts, answer.asked, depth) else Failed;
            var done := found.Addresses? || found.Nothing?;
            var next := more && (done || (answer.Answer? && answer.rcode != 0));
            && (r.code == CodeVoid <==> next && starts)
            && (r.code == CodeAlarm <==> answer == NoAnswer(true))
            && (r.code == CodeQuery <==> answer == NoAnswer(false) || (next && !starts))
            && (r.code == CodeRcode <==> answer.Answer? && answer.rcode != 0 && !more)
            && (r.code == CodeParse <==> answer.Answer? && answer.rcode == 0 && (answer.records.None? || found.BadAlias?))
            && (r.code == CodeCname <==> found.TooDeep?)
            && (r.code == CodeOk <==> done && !more && (l.addrs != [] || found.Addresses?))
            && (r.code == CodeEmpty <==> found.Nothing? && !more && l.addrs == [])
            && (r.qType.Inet? <==> next || l.qType.Inet?) && r.queries == l.queries + if next && starts then 1 else 0
  {
    hide Follow;
    if answer.Answer? && answer.rcode == 0 && answer.records.Some? {
      FoundSome(answer.records.value, opts, answer.asked, depth);
    }
  }

  lemma FoundSome(rrs: seq<Rr>, opts: Options, name: Name, depth: nat)
    ensures Follow(rrs, opts, name, depth).Addresses? ==> Follow(rrs, opts, name, depth).list != []
  {
    hide Follow;
    if Follow(rrs, opts, name, depth).Addresses? {
      FollowFinds(rrs, opts, name, depth, Follow(rrs, opts, name, depth).list);
    }
  }

  /** With both families enabled a lookup that gets a second answer returns what the two
      answers contribute, in that order, and succeeds exactly when the second answer can be
      followed and one of the two has an address. A second query that fails takes the
      addresses of the first with it. */
  lemma LookupResult(opts: Options, depth: nat, first: Answer, second: Answer, s1: bool, s2: bool)
    requires opts == Options(false, false)
    requires After(opts, depth, [(first, s1)]).Some? && After(opts, depth, [(first, s1)]).value.code == CodeVoid
    requires After(opts, depth, [(first, s1), (second, s2)]).Some?
    ensures var l := After(opts, depth, [(first, s1), (second, s2)]).value;
            && l.queries == 2 && l.qType == Inet
            && l.addrs == Contributes(opts, depth, first) + Contributes(opts, depth, second)
            && (l.code == CodeOk <==>
                  && second.Answer? && second.rcode == 0 && second.records.Some?
                  && !Follow(second.records.value, opts, second.asked, depth).BadAlias?
                  && !Follow(second.records.value, opts, second.asked, depth).TooDeep?
                  && l.addrs != [])
            && ((forall a | a in Contributes(opts, depth, first) :: a.family.Inet6?)
                && (forall a | a in Contributes(opts, depth, second) :: a.family.Inet?) ==>
                forall i, j | 0 <= i < j < |l.addrs| && l.addrs[i].family.Inet? :: l.addrs[j].family.Inet?)
  {
    hide After, Follow;
    AfterSteps(opts, depth, first, second, s1, s2);
    OnAnswerOk(Started(opts), opts, depth, first, s1);
    var l := After(opts, depth, [(first, s1)]).value;
    assert l.addrs == Contributes(opts, depth, first);
    OnAnswerOk(l, opts, depth, second, s2);
  }

  lemma AfterSteps(opts: Options, depth: nat, first: Answer, second: Answer, s1: bool, s2: bool)
    ensures var one := After(opts, depth, [(first, s1)]);
            && one == OnAnswer(Started(opts), opts, depth, first, s1)
            && (one.Some? && one.value.code == CodeVoid ==>
                  After(opts, depth, [(first, s1), (second, s2)]) == OnAnswer(one.value, opts, depth, second, s2))
  {
    hide OnAnswer;
    var one, two := [(first, s1)], [(first, s1), (second, s2)];
    assert one[..0] == [] && two[..1] == one;
    assert After(opts, depth, []) == Some(Started(opts));
  }

  // ------------------------------------------------------------- on the list

  /** The loop over the answer: addresses, then an alias, then the addresses again. */
  method FollowAnswer(rrs: seq<Rr>, opts: Options, wanted: Name, maxDepth: nat) returns (found: Found)
    ensures found == Follow(rrs, opts, wanted, maxDepth)
  {
    var owner, remaining := wanted, maxDepth;
    while true
      invariant Follow(rrs, opts, wanted, maxDepth) == Follow(rrs, opts, owner, remaining)
      decreases remaining
    {
      var list := ScanAddresses(rrs, opts, owner);
      if list.None? {
        return Failed;
      }
      if |list.value| > 0 {
        return Addresses(list.value);
      }
      var alias := ScanAliases(rrs, owner);
      match alias {
        case NoAlias => return Nothing;
        case AliasFailed => return Failed;
        case AliasBad => return BadAlias;
        case AliasTo(target) =>
          if remaining == 0 {
            return TooDeep;
          }
          owner, remaining := target, remaining - 1;
      }
    }
  }

  method ScanAddresses(rrs: seq<Rr>, opts: Options, owner: Name) returns (r: Option<seq<Addr>>)
    ensures r == AddressesOf(rrs, opts, owner)
  {
    var list: seq<Addr> := [];
    for i := 0 to |rrs|
      invariant AddressesOf(rrs[..i], opts, owner) == Some(list)
    {
      var rr := rrs[i];
      assert rrs[..i + 1][..i] == rrs[..i];
      if WantedAddress(opts, rr) {
        if rr.owner.None? {
          AddressesFail(rrs, opts, owner, i + 1);
          return None;
        }
        if rr.owner.value == owner {
          if !rr.data.sized {
            AddressesFail(rrs, opts, owner, i + 1);
            return None;
          }
          list := list + [rr.data.addr];
        }
      }
    }
    assert rrs[..|rrs|] == rrs;
    r := Some(list);
  }

  lemma {:induction false} AddressesFail(rrs: seq<Rr>, opts: Options, name: Name, i: nat)
    requires i <= |rrs| && AddressesOf(rrs[..i], opts, name) == None
    ensures AddressesOf(rrs, opts, name) == None
    decreases |rrs| - i
  {
    if i < |rrs| {
      assert rrs[..i + 1][..i] == rrs[..i];
      AddressesFail(rrs, opts, name, i + 1);
    } else {
      assert rrs[..i] == rrs;
    }
  }

  method ScanAliases(rrs: seq<Rr>, owner: Name) returns (next: Next)
    ensures next == FirstAlias(rrs, owner, 0)
  {
    for i := 0 to |rrs|
      invariant FirstAlias(rrs, owner, 0) == FirstAlias(rrs, owner, i)
    {
      var rr := rrs[i];
      if rr.inClass && rr.data.Alias? {
        if rr.owner.None? {
          return AliasFailed;
        }
        if rr.owner.value == owner {
          if rr.data.target.None? {
            return AliasBad;
          }
          return AliasTo(rr.data.target.value);
        }
      }
    }
    next := NoAlias;
  }

  class HostQuery {
    const options: Options
    const maxCnameDepth: nat
    var qType: Family
    var answerAddrList: seq<Addr>
    var answerCode: Code
    ghost var queries: nat

    ghost function View(): Lookup reads this {
      Lookup(qType, answerAddrList, answerCode, queries)
    }

    ghost predicate Valid() reads this {
      options.Ok() && LookupOk(options, View())
    }

    constructor (options: Options, maxCnameDepth: nat)
      requires options.Ok() && maxCnameDepth <= CNAME_DEPTH
      ensures this.options == options && this.maxCnameDepth == maxCnameDepth
      ensures Valid() && View() == Started(options)
    {
      this.options, this.maxCnameDepth := options, maxCnameDepth;
      qType := if options.noInet6 then Inet else Inet6;
      answerAddrList, answerCode, queries := [], CodeVoid, 1;
    }

    method Resubmit(starts: bool)
      requires !NeedsA(Inet, options)
      modifies this
      ensures View() == AskA(old(View()), starts)
    {
      qType := Inet;
      if starts {
        queries := queries + 1;
      } else {
        answerCode := CodeQuery;
      }
    }

    /** True when an assertion of the program fails. */
    method OnHostAnswer(answer: Answer, starts: bool) returns (aborted: bool)
      requires Valid() && answerCode == CodeVoid
      modifies this
      ensures aborted <==> OnAnswer(old(View()), options, maxCnameDepth, answer, starts).None?
      ensures !aborted ==> Valid() && Some(View()) == OnAnswer(old(View()), options, maxCnameDepth, answer, starts)
      ensures !aborted && old(queries) == 2 ==> answerCode != CodeVoid
    {
      ghost var goal := OnAnswer(View(), options, maxCnameDepth, answer, starts);
      if goal.Some? {
        OnAnswerOk(View(), options, maxCnameDepth, answer, starts);
      }
      if answer.NoAnswer? {
        answerCode := if answer.timeout then CodeAlarm else CodeQuery;
        return false;
      }
      if answer.rcode != 0 {
        if NeedsA(qType, options) {
          Resubmit(starts);
        } else {
          answerCode := CodeRcode;
        }
        return false;
      }
      if answer.records.None? {
        answerCode := CodeParse;
        return false;
      }
      var found := FollowAnswer(answer.records.value, options, answer.asked, maxCnameDepth);
      match found {
        case Failed => return true;
        case BadAlias => answerCode := CodeParse;
        case TooDeep => answerCode := CodeCname;
        case Addresses(list) =>
          answerAddrList := answerAddrList + list;
          if NeedsA(qType, options) {
            Resubmit(starts);
          } else {
            answerCode := CodeOk;
          }
        case Nothing =>
          if NeedsA(qType, options) {
            Resubmit(starts);
          } else {
            answerCode := if |answerAddrList| > 0 then CodeOk else CodeEmpty;
          }
      }
      aborted := false;
    }
  }
}
