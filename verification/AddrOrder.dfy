/** Destination address selection (section 6 of RFC 3484): the rules, the comparator, and
    when sorting with it makes sense. */
module AddrOrder {
  import opened AddrBits
  import opened Bytes
  import opened Families

  datatype Source = Source(family: Family, octets: Octets)

  datatype Address = Address(family: Family, octets: Octets, src: Option<Source>)

  predicate Sized(family: Family, octets: Octets) {
    |octets| == if family.Inet? then 4 else 16
  }

  predicate AddressOk(a: Address) {
    Sized(a.family, a.octets) && (a.src.Some? ==> Sized(a.src.value.family, a.src.value.octets))
  }

  // ----------------------------------------------------------------- scopes

  const SCOPE_LINK_LOCAL := 0x2
  const SCOPE_SITE_LOCAL := 0x5
  const SCOPE_GLOBAL := 0xE
  const SCOPE_UNSPEC := 0x10

  function Scope4(o: Octets): int
    requires |o| == 4
  {
    if (o[0] == 169 && o[1] == 254) || o[0] == 127 then SCOPE_LINK_LOCAL
    else if o[0] == 10 || (o[0] == 192 && o[1] == 168) || (o[0] == 172 && 16 <= o[1] <= 31) then SCOPE_SITE_LOCAL
    else if o == [0, 0, 0, 0] then SCOPE_UNSPEC
    else SCOPE_GLOBAL
  }

  /** A multicast address carries its scope. */
  function Scope6(o: Octets): int
    requires |o| == 16
  {
    if o[0] == 0xFF then (o[1] & 0x0F) as int
    else if o[0] == 0xFE && o[1] & 0xC0 == 0x80 then SCOPE_LINK_LOCAL
    else if o == LOOPBACK6 then SCOPE_LINK_LOCAL
    else if o[0] == 0xFE && o[1] & 0xC0 == 0xC0 then SCOPE_SITE_LOCAL
    else if o == ZERO6 then SCOPE_UNSPEC
    else SCOPE_GLOBAL
  }

  function Scope(family: Family, o: Octets): int
    requires Sized(family, o)
  {
    if family.Inet? then Scope4(o) else Scope6(o)
  }

  // ----------------------------------------------------------------- policy

  /** The IPv4 address as an IPv6 one. */
  function Mapped(o: Octets): (six: Octets)
    requires |o| == 4
    ensures |six| == 16 && six[0] == 0 && six[10] == 0xFF && six[12] == o[0]
  {
    MAPPED[..12] + o
  }

  /** IPv4 addresses are looked up as mapped ones, except the loopback and the unspecified. */
  function ToInet6(family: Family, o: Octets): (r: Octets)
    requires Sized(family, o)
    ensures |r| == 16
  {
    if family.Inet6? then o
    else if o == [0, 0, 0, 0] then ZERO6
    else if o == [0x7F, 0, 0, 1] then LOOPBACK6
    else Mapped(o)
  }

  function Policy(t: seq<Prefix>, family: Family, o: Octets): int
    requires PolicyNets(t) && Sized(family, o)
  {
    FirstMatchIsLongest(t, ToInet6(family, o));
    t[FirstMatch(t, ToInet6(family, o), 0)].val
  }

  function Label(family: Family, o: Octets): int
    requires Sized(family, o)
  {
    Policy(DEFAULT_LABEL, family, o)
  }

  function Precedence(family: Family, o: Octets): int
    requires Sized(family, o)
  {
    Policy(DEFAULT_PRECEDENCE, family, o)
  }

  // ------------------------------------------------------------- comparator

  function ScopeMatch(a: Address): bool
    requires AddressOk(a) && a.src.Some?
  {
    Scope(a.family, a.octets) == Scope(a.src.value.family, a.src.value.octets)
  }

  function LabelMatch(a: Address): bool
    requires AddressOk(a) && a.src.Some?
  {
    Label(a.family, a.octets) == Label(a.src.value.family, a.src.value.octets)
  }

  /** The source that is reported has the family of the address. */
  predicate OwnFamily(a: Address) {
    AddressOk(a) && (a.src.Some? ==> a.src.value.family == a.family)
  }

  function SourcePrefix(a: Address): nat
    requires OwnFamily(a) && a.src.Some?
  {
    CommonPrefix(a.octets, a.src.value.octets)
  }

  /** Rules 1, 2, 5, 6, 8 and 9; the others are not implemented. Negative: `a` first. */
  function Rfc3484Cmp(a: Address, b: Address): int
    requires OwnFamily(a) && OwnFamily(b)
  {
    var both := a.src.Some? && b.src.Some?;
    var scopeA, scopeB := Scope(a.family, a.octets), Scope(b.family, b.octets);
    var precA, precB := Precedence(a.family, a.octets), Precedence(b.family, b.octets);
    if a.src.Some? && b.src.None? then -1
    else if a.src.None? && b.src.Some? then 1
    else if both && ScopeMatch(a) && !ScopeMatch(b) then -1
    else if both && !ScopeMatch(a) && ScopeMatch(b) then 1
    else if both && LabelMatch(a) && !LabelMatch(b) then -1
    else if both && !LabelMatch(a) && LabelMatch(b) then 1
    else if precA > precB then -1
    else if precA < precB then 1
    else if scopeA < scopeB then -1
    else if scopeA > scopeB then 1
    else if a.family == b.family && both && SourcePrefix(a) > SourcePrefix(b) then -1
    else if a.family == b.family && both && SourcePrefix(a) < SourcePrefix(b) then 1
    else 0
  }

  datatype Options = Options(rfc3484: bool, noSort6: bool)

  /** The comparator of the sort, without the tie-break by position. */
  function CmpPreference(opts: Options, a: Address, b: Address): int
    requires OwnFamily(a) && OwnFamily(b)
  {
    var result := if opts.rfc3484 then Rfc3484Cmp(a, b) else 0;
    if result != 0 then result
    else if !opts.noSort6 && a.family.Inet6? && b.family.Inet? then -1
    else if !opts.noSort6 && a.family.Inet? && b.family.Inet6? then 1
    else 0
  }

  // ------------------------------------------------------- lexicographic key

  /** What is compared, in this order; smaller comes first. */
  datatype Key = Key(noSource: int, scopeMiss: int, labelMiss: int, negPrecedence: int, scope: int, family: int, negPrefix: int)

  function KeyOf(opts: Options, a: Address): Key
    requires OwnFamily(a)
  {
    hide Precedence, Scope, ScopeMatch, LabelMatch, SourcePrefix;
    var family := if opts.noSort6 || a.family.Inet6? then 0 else 1;
    if !opts.rfc3484 then Key(0, 0, 0, 0, 0, family, 0)
    else
      var p, s := Precedence(a.family, a.octets), Scope(a.family, a.octets);
      if a.src.None? then Key(1, 0, 0, -p, s, family, 0)
      else Key(0, if ScopeMatch(a) then 0 else 1, if LabelMatch(a) then 0 else 1, -p, s, family, 0 - SourcePrefix(a))
  }

  function Then(x: int, y: int, rest: int): int {
    if x < y then -1 else if x > y then 1 else rest
  }

  function Lex(x: Key, y: Key): int {
    Then(x.noSource, y.noSource, Then(x.scopeMiss, y.scopeMiss, Then(x.labelMiss, y.labelMiss,
      Then(x.negPrecedence, y.negPrecedence, Then(x.scope, y.scope, Then(x.family, y.family,
        Then(x.negPrefix, y.negPrefix, 0)))))))
  }

  /** Unless both options that meet in Rule 9 are set, the comparator is the order of keys. */
  lemma CmpIsLexicographic(opts: Options, a: Address, b: Address)
    requires OwnFamily(a) && OwnFamily(b) && !(opts.rfc3484 && opts.noSort6)
    ensures CmpPreference(opts, a, b) == Lex(KeyOf(opts, a), KeyOf(opts, b))
  {
    hide Scope, Precedence, ScopeMatch, LabelMatch, SourcePrefix;
  }

  /** The rules in the order of section 6 of RFC 3484, each deciding where those before it do
      not: a source (1), one of the same scope (2), one of the same label (5), the higher
      precedence (6), the smaller scope (8), the longer prefix shared with the source, within a
      family (9); and the IPv6 address last, where it is preferred. */
  lemma RulesInOrder(opts: Options, a: Address, b: Address)
    requires OwnFamily(a) && OwnFamily(b) && opts.rfc3484
    ensures var c, both := CmpPreference(opts, a, b), a.src.Some? && b.src.Some?;
            var (p, q) := (Precedence(a.family, a.octets), Precedence(b.family, b.octets));
            var (s, t) := (Scope(a.family, a.octets), Scope(b.family, b.octets));
            var scopeA := a.src.Some? && s == Scope(a.src.value.family, a.src.value.octets);
            var scopeB := b.src.Some? && t == Scope(b.src.value.family, b.src.value.octets);
            var labelA := a.src.Some? && Label(a.family, a.octets) == Label(a.src.value.family, a.src.value.octets);
            var labelB := b.src.Some? && Label(b.family, b.octets) == Label(b.src.value.family, b.src.value.octets);
            && (a.src.Some? && b.src.None? ==> c < 0)
            && (both && scopeA && !scopeB ==> c < 0)
            && (both && scopeA == scopeB && labelA && !labelB ==> c < 0)
            && (a.src.Some? == b.src.Some? && scopeA == scopeB && labelA == labelB ==>
                  && (p > q ==> c < 0)
                  && (p == q && s < t ==> c < 0)
                  && (p == q && s == t && a.family == b.family ==>
                        if !both then c == 0
                        else
                          var (k, l) := (CommonPrefix(a.octets, a.src.value.octets), CommonPrefix(b.octets, b.src.value.octets));
                          (k > l ==> c < 0) && (k == l ==> c == 0))
                  && (p == q && s == t && a.family.Inet6? && b.family.Inet? ==> if opts.noSort6 then c == 0 else c < 0))
    ensures CmpPreference(opts, a, b) == 0 - CmpPreference(opts, b, a)
  {
    hide Scope, Precedence, Label, CommonPrefix;
  }

  ghost predicate Preorder(opts: Options) {
    forall a: Address, b: Address, c: Address | OwnFamily(a) && OwnFamily(b) && OwnFamily(c) ::
      && (CmpPreference(opts, a, b) < 0 <==> CmpPreference(opts, b, a) > 0)
      && (CmpPreference(opts, a, b) <= 0 && CmpPreference(opts, b, c) <= 0 ==> CmpPreference(opts, a, c) <= 0)
  }

  /** The comparator is a total preorder exactly when the RFC 3484 rules are not combined
      with "no preference for IPv6": Rule 9 compares only addresses of one family, so
      without the preference an IPv4 address can tie with two IPv6 addresses that do not. */
  lemma PreorderExactly(opts: Options)
    ensures Preorder(opts) <==> !(opts.rfc3484 && opts.noSort6)
  {
    hide CmpPreference, KeyOf;
    if opts.rfc3484 && opts.noSort6 {
      var a, b, c := Rule9Example();
    } else {
      forall a: Address, b: Address, c: Address | OwnFamily(a) && OwnFamily(b) && OwnFamily(c)
        ensures CmpPreference(opts, a, b) < 0 <==> CmpPreference(opts, b, a) > 0
        ensures CmpPreference(opts, a, b) <= 0 && CmpPreference(opts, b, c) <= 0 ==> CmpPreference(opts, a, c) <= 0
      {
        CmpIsLexicographic(opts, a, b);
        CmpIsLexicographic(opts, b, a);
        CmpIsLexicographic(opts, b, c);
        CmpIsLexicographic(opts, a, c);
      }
    }
  }

  /** 1.2.3.4 ties with two mapped addresses, one of which is nearer its source. */
  lemma Rule9Example() returns (a: Address, b: Address, c: Address)
    ensures OwnFamily(a) && OwnFamily(b) && OwnFamily(c)
    ensures var opts := Options(true, true);
            CmpPreference(opts, a, b) == 0 && CmpPreference(opts, b, c) == 0 && CmpPreference(opts, a, c) > 0
  {
    hide Label, Precedence, CommonPrefix;
    var four: Octets, far: Octets := [1, 2, 3, 4], [128, 2, 3, 4];
    MappedPolicy(four);
    MappedPolicy(far);
    var six, six' := Mapped(four), Mapped(far);
    a := Address(Inet6, six', Some(Source(Inet6, six)));
    b := Address(Inet, four, Some(Source(Inet, four)));
    c := Address(Inet6, six, Some(Source(Inet6, six)));
    assert six[12] != six'[12];
    CommonIsUltrametric(six, six, six);
    CommonIsUltrametric(six', six, six);
  }

  /** It is in the network of mapped addresses and in no network before it. */
  lemma MappedMatch(t: seq<Prefix>, o: Octets)
    requires PolicyNets(t) && |o| == 4
    ensures WellSized(t) && FirstMatch(t, Mapped(o), 0) == 3
  {
    hide InNet;
    var six := Mapped(o);
    InNetPrefix(MAPPED, 96, six);
    assert six[..12] == MAPPED[..12];
    NotInNet(LOOPBACK6, 128, six, 10);
    NotInNet(SIX_TO_FOUR, 16, six, 0);
    NotInNet(ZERO6, 96, six, 10);
  }

  lemma NotInNet(net: Octets, n: nat, a: Octets, k: nat)
    requires |net| == |a| && n <= 8 * |net| && n % 8 == 0 && k < n / 8 && net[k] != a[k]
    ensures !InNet(net, n, a)
  {
    InNetPrefix(net, n, a);
    assert net[..n / 8][k] == net[k] && a[..n / 8][k] == a[k];
  }

  /** A mapped address always has label 4, precedence 10 and global scope. The IPv4 address has
      the same label and the same precedence exactly unless it is unspecified or the loopback
      address, which are looked up as the IPv6 ones, and the same scope exactly when its own
      is global. */
  lemma MappedPolicy(o: Octets)
    requires |o| == 4
    ensures Label(Inet6, Mapped(o)) == 4 && Precedence(Inet6, Mapped(o)) == 10 && Scope(Inet6, Mapped(o)) == SCOPE_GLOBAL
    ensures Label(Inet, o) == 4 <==> o != [0, 0, 0, 0] && o != [0x7F, 0, 0, 1]
    ensures Precedence(Inet, o) == 10 <==> o != [0, 0, 0, 0] && o != [0x7F, 0, 0, 1]
    ensures Scope(Inet, o) == SCOPE_GLOBAL <==>
            && o[0] != 127 && o[0] != 10 && o[..2] != [169, 254] && o[..2] != [192, 168]
            && !(o[0] == 172 && 16 <= o[1] <= 31) && o != [0, 0, 0, 0]
  {
    hide InNet, FirstMatch;
    MappedMatch(DEFAULT_LABEL, o);
    MappedMatch(DEFAULT_PRECEDENCE, o);
    if o == [0, 0, 0, 0] {
      SpecialMatch(DEFAULT_LABEL, ZERO6, 2);
      SpecialMatch(DEFAULT_PRECEDENCE, ZERO6, 2);
    } else if o == [0x7F, 0, 0, 1] {
      SpecialMatch(DEFAULT_LABEL, LOOPBACK6, 0);
      SpecialMatch(DEFAULT_PRECEDENCE, LOOPBACK6, 0);
    } else {
      assert ToInet6(Inet, o) == Mapped(o);
    }
    assert o[..2] == [o[0], o[1]];
  }

  /** Which entry of a policy table an address matches, by its octets. */
  lemma MatchByOctets(t: seq<Prefix>, a: Octets)
    requires PolicyNets(t) && |a| == 16
    ensures WellSized(t)
    ensures FirstMatch(t, a, 0) ==
            if a == [0, 0, 0, 0, 0, 0, 0, 0, 0, 0, 0, 0, 0, 0, 0, 1] then 0
            else if a[0] == 0x20 && a[1] == 0x02 then 1
            else if a[..12] == [0, 0, 0, 0, 0, 0, 0, 0, 0, 0, 0, 0] then 2
            else if a[..12] == [0, 0, 0, 0, 0, 0, 0, 0, 0, 0, 0xFF, 0xFF] then 3
            else 4
  {
    hide InNet;
    NetsByOctets(a);
    hide LOOPBACK6, SIX_TO_FOUR, ZERO6, MAPPED;
    assert InNet(t[0].net, t[0].bits, a) ==> FirstMatch(t, a, 0) == 0;
    assert !InNet(t[0].net, t[0].bits, a) ==> FirstMatch(t, a, 0) == FirstMatch(t, a, 1);
    assert !InNet(t[1].net, t[1].bits, a) ==> FirstMatch(t, a, 1) == FirstMatch(t, a, 2);
    assert !InNet(t[2].net, t[2].bits, a) ==> FirstMatch(t, a, 2) == FirstMatch(t, a, 3);
    assert !InNet(t[3].net, t[3].bits, a) ==> FirstMatch(t, a, 3) == FirstMatch(t, a, 4);
  }

  lemma NetsByOctets(a: Octets)
    requires |a| == 16
    ensures InNet(LOOPBACK6, 128, a) <==> a == [0, 0, 0, 0, 0, 0, 0, 0, 0, 0, 0, 0, 0, 0, 0, 1]
    ensures InNet(SIX_TO_FOUR, 16, a) <==> a[0] == 0x20 && a[1] == 0x02
    ensures InNet(ZERO6, 96, a) <==> a[..12] == [0, 0, 0, 0, 0, 0, 0, 0, 0, 0, 0, 0]
    ensures InNet(MAPPED, 96, a) <==> a[..12] == [0, 0, 0, 0, 0, 0, 0, 0, 0, 0, 0xFF, 0xFF]
    ensures InNet(ZERO6, 0, a)
  {
    hide InNet;
    InNetPrefix(LOOPBACK6, 128, a);
    InNetPrefix(SIX_TO_FOUR, 16, a);
    InNetPrefix(ZERO6, 96, a);
    InNetPrefix(MAPPED, 96, a);
    InNetPrefix(ZERO6, 0, a);
    assert a[..16] == a && LOOPBACK6[..16] == LOOPBACK6;
    assert a[..2] == [a[0], a[1]] && SIX_TO_FOUR[..2] == [0x20, 0x02];
    assert ZERO6[..12] == [0, 0, 0, 0, 0, 0, 0, 0, 0, 0, 0, 0];
    assert MAPPED[..12] == [0, 0, 0, 0, 0, 0, 0, 0, 0, 0, 0xFF, 0xFF];
  }

  /** The policy of every IPv6 address, by its octets: loopback, 6to4, the compatible and the
      mapped IPv4 addresses, and all others (section 2.1 of RFC 3484). */
  lemma PolicyByOctets(a: Octets)
    requires |a| == 16
    ensures var policy := (Precedence(Inet6, a), Label(Inet6, a));
            policy == if a == [0, 0, 0, 0, 0, 0, 0, 0, 0, 0, 0, 0, 0, 0, 0, 1] then (50, 0)
                      else if a[0] == 0x20 && a[1] == 0x02 then (30, 2)
                      else if a[..12] == [0, 0, 0, 0, 0, 0, 0, 0, 0, 0, 0, 0] then (20, 3)
                      else if a[..12] == [0, 0, 0, 0, 0, 0, 0, 0, 0, 0, 0xFF, 0xFF] then (10, 4)
                      else (40, 1)
  {
    hide FirstMatch;
    MatchByOctets(DEFAULT_LABEL, a);
    MatchByOctets(DEFAULT_PRECEDENCE, a);
  }

  /** An IPv4 address has the policy of its mapped form, but for the unspecified one and
      127.0.0.1, which have those of `::` and `::1`. */
  lemma PolicyOfInet(o: Octets)
    requires |o| == 4
    ensures (Precedence(Inet, o), Label(Inet, o))
         == if o == [0, 0, 0, 0] then (20, 3) else if o == [127, 0, 0, 1] then (50, 0) else (10, 4)
  {
    var six := ToInet6(Inet, o);
    InetOctets(o);
    hide FirstMatch, ToInet6;
    PolicyByOctets(six);
    assert ToInet6(Inet6, six) == six by { SixStays(six); }
    assert Precedence(Inet, o) == Precedence(Inet6, six) && Label(Inet, o) == Label(Inet6, six);
  }

  lemma SixStays(six: Octets)
    requires |six| == 16
    ensures ToInet6(Inet6, six) == six
  {
  }

  lemma InetOctets(o: Octets)
    requires |o| == 4
    ensures var six := ToInet6(Inet, o);
            && six[0] == 0
            && (six == [0, 0, 0, 0, 0, 0, 0, 0, 0, 0, 0, 0, 0, 0, 0, 1] <==> o == [127, 0, 0, 1])
            && six[..12] == if o == [0, 0, 0, 0] || o == [127, 0, 0, 1] then [0, 0, 0, 0, 0, 0, 0, 0, 0, 0, 0, 0]
                            else [0, 0, 0, 0, 0, 0, 0, 0, 0, 0, 0xFF, 0xFF]
  {
    var six := ToInet6(Inet, o);
    if o == [0, 0, 0, 0] {
      assert six[15] == 0;
    } else if o != [127, 0, 0, 1] {
      assert six[10] == 0xFF;
    }
  }

  /** An ordinary IPv6 address comes before an IPv4 one where Rules 1, 2 and 5 do not decide. */
  lemma NativeBeforeInet(opts: Options, a: Address, b: Address)
    requires OwnFamily(a) && OwnFamily(b) && opts.rfc3484 && a.family.Inet6? && b.family.Inet?
    requires a.octets[0] != 0 && b.octets != [127, 0, 0, 1]
    requires a.src.Some? <==> b.src.Some?
    requires a.src.Some? && b.src.Some? ==> ScopeMatch(a) == ScopeMatch(b) && LabelMatch(a) == LabelMatch(b)
    ensures CmpPreference(opts, a, b) == -1 && CmpPreference(opts, b, a) == 1
  {
    hide Precedence, Label, Scope;
    PolicyByOctets(a.octets);
    PolicyOfInet(b.octets);
    assert a.octets[0] == a.octets[..12][0];
  }

  // ------------------------------------------------------- scopes, by network

  const LINK4: Octets := [169, 254, 0, 0]
  const LOOP4: Octets := [127, 0, 0, 0]
  const TEN4: Octets := [10, 0, 0, 0]
  const PRIVATE_B: Octets := [172, 16, 0, 0]
  const PRIVATE_C: Octets := [192, 168, 0, 0]

  /** IPv4 scopes: link-local in 169.254/16 and 127/8, site-local in the private networks 10/8,
      172.16/12 and 192.168/16, global elsewhere but for 0.0.0.0. */
  lemma Scope4ByNet(o: Octets)
    requires |o| == 4
    ensures Scope(Inet, o) == 0x2 <==> InNet(LINK4, 16, o) || InNet(LOOP4, 8, o)
    ensures Scope(Inet, o) == 0x5 <==> InNet(TEN4, 8, o) || InNet(PRIVATE_B, 12, o) || InNet(PRIVATE_C, 16, o)
    ensures Scope(Inet, o) == 0x10 <==> o == [0, 0, 0, 0]
    ensures Scope(Inet, o) in {0x2, 0x5, 0x10, 0xE}
  {
    TopFour(o[1]);
    InTwoOctets(LINK4, o);
    InTwoOctets(LOOP4, o);
    InTwoOctets(TEN4, o);
    InTwoOctets(PRIVATE_B, o);
    InTwoOctets(PRIVATE_C, o);
  }

  lemma InTwoOctets(net: Octets, o: Octets)
    requires |net| == |o| == 4
    ensures InNet(net, 8, o) <==> net[0] == o[0]
    ensures InNet(net, 12, o) <==> net[0] == o[0] && net[1] == o[1] & 0xF0
    ensures InNet(net, 16, o) <==> net[0] == o[0] && net[1] == o[1]
  {
    assert InNet(net[1..], 4, o[1..]) <==> net[1..][0] == o[1..][0] & 0xF0;
    assert InNet(net[1..], 8, o[1..]) <==> net[1..][0] == o[1..][0] && InNet(net[1..][1..], 0, o[1..][1..]);
  }

  lemma TopFour(b: bv8)
    ensures 16 <= b <= 31 <==> b & 0xF0 == 16
  {
  }

  const LINK6: Octets := [0xFE, 0x80, 0, 0, 0, 0, 0, 0, 0, 0, 0, 0, 0, 0, 0, 0]
  const SITE6: Octets := [0xFE, 0xC0, 0, 0, 0, 0, 0, 0, 0, 0, 0, 0, 0, 0, 0, 0]
  const MULTICAST: Octets := [0xFF, 0, 0, 0, 0, 0, 0, 0, 0, 0, 0, 0, 0, 0, 0, 0]

  /** IPv6 scopes: a multicast address (ff00::/8) has the scope in its second octet; link-local
      in fe80::/10 and for the loopback, site-local in fec0::/10, global elsewhere but for `::`. */
  lemma Scope6ByNet(o: Octets)
    requires |o| == 16
    ensures InNet(MULTICAST, 8, o) ==> Scope(Inet6, o) == o[1] as int % 16
    ensures !InNet(MULTICAST, 8, o) ==>
              var s := Scope(Inet6, o);
              && (s == 0x2 <==> InNet(LINK6, 10, o) || o == [0, 0, 0, 0, 0, 0, 0, 0, 0, 0, 0, 0, 0, 0, 0, 1])
              && (s == 0x5 <==> InNet(SITE6, 10, o))
              && (s == 0x10 <==> o == [0, 0, 0, 0, 0, 0, 0, 0, 0, 0, 0, 0, 0, 0, 0, 0])
              && s in {0x2, 0x5, 0x10, 0xE}
  {
    LowNibble(o[1]);
    InTenBits(MULTICAST, o);
    InTenBits(LINK6, o);
    InTenBits(SITE6, o);
    hide InNet;
    assert o[0] == 0xFE ==> o != ZERO6 && o != LOOPBACK6;
    assert ZERO6 != LOOPBACK6 by { assert ZERO6[15] != LOOPBACK6[15]; }
  }

  lemma InTenBits(net: Octets, o: Octets)
    requires |net| == |o| == 16
    ensures InNet(net, 8, o) <==> net[0] == o[0]
    ensures InNet(net, 10, o) <==> net[0] == o[0] && net[1] == o[1] & 0xC0
  {
    assert InNet(net[1..], 2, o[1..]) <==> net[1..][0] == o[1..][0] & 0xC0;
  }

  lemma LowNibble(b: bv8)
    ensures (b & 0x0F) as int == b as int % 16
  {
  }

  /** The unspecified and the loopback address match their own networks first. */
  lemma SpecialMatch(t: seq<Prefix>, six: Octets, k: nat)
    requires PolicyNets(t) && ((six == ZERO6 && k == 2) || (six == LOOPBACK6 && k == 0))
    ensures |six| == 16 && WellSized(t) && FirstMatch(t, six, 0) == k
  {
    hide InNet;
    InNetPrefix(ZERO6, 96, six);
    InNetPrefix(LOOPBACK6, 128, six);
    NotInNet(SIX_TO_FOUR, 16, six, 0);
    if k == 2 {
      NotInNet(LOOPBACK6, 128, six, 15);
    }
  }

  /** For whole octets, membership is equality of the leading octets. */
  lemma {:induction false} InNetPrefix(net: Octets, n: nat, a: Octets)
    requires |net| == |a| && n <= 8 * |net| && n % 8 == 0
    ensures InNet(net, n, a) <==> net[..n / 8] == a[..n / 8]
    decreases n
  {
    if n >= 8 {
      InNetPrefix(net[1..], n - 8, a[1..]);
      assert net[..n / 8] == [net[0]] + net[1..][..n / 8 - 1];
      assert a[..n / 8] == [a[0]] + a[1..][..n / 8 - 1];
    }
  }

  // ------------------------------------------------------------------- sort

  /** An address and its place in the list before the sort. */
  datatype Item = Item(index: nat, addr: Address)

  /** The comparator with its tie-break. */
  ghost predicate Before(opts: Options, x: Item, y: Item)
    requires OwnFamily(x.addr) && OwnFamily(y.addr)
  {
    var c := CmpPreference(opts, x.addr, y.addr);
    c < 0 || (c == 0 && x.index < y.index)
  }

  ghost predicate AllOwn(s: seq<Item>) {
    forall i | 0 <= i < |s| :: OwnFamily(s[i].addr)
  }

  ghost predicate Sorted(opts: Options, s: seq<Item>)
    requires AllOwn(s)
  {
    forall i, j | 0 <= i < j < |s| :: Before(opts, s[i], s[j])
  }

  ghost predicate Numbered(s: seq<Item>) {
    forall i, j | 0 <= i < j < |s| :: s[i].index != s[j].index
  }

  lemma BeforeTotal(opts: Options, x: Item, y: Item, z: Item)
    requires OwnFamily(x.addr) && OwnFamily(y.addr) && OwnFamily(z.addr) && !(opts.rfc3484 && opts.noSort6)
    ensures !(Before(opts, x, y) && Before(opts, y, x))
    ensures x.index != y.index ==> Before(opts, x, y) || Before(opts, y, x)
    ensures Before(opts, x, y) && Before(opts, y, z) ==> Before(opts, x, z)
  {
    hide CmpPreference, KeyOf;
    CmpIsLexicographic(opts, x.addr, y.addr);
    CmpIsLexicographic(opts, y.addr, x.addr);
    CmpIsLexicographic(opts, y.addr, z.addr);
    CmpIsLexicographic(opts, x.addr, z.addr);
  }

  ghost function Insert(opts: Options, s: seq<Item>, x: Item): seq<Item>
    requires AllOwn(s) && OwnFamily(x.addr)
  {
    if s == [] || Before(opts, x, s[0]) then [x] + s else [s[0]] + Insert(opts, s[1..], x)
  }

  /** A stable sort. */
  ghost function StableSort(opts: Options, s: seq<Item>): (r: seq<Item>)
    requires AllOwn(s)
    ensures AllOwn(r)
  {
    if s == [] then []
    else
      var rest := StableSort(opts, s[1..]);
      InsertMembers(opts, rest, s[0]);
      Insert(opts, rest, s[0])
  }

  lemma {:induction false} InsertMembers(opts: Options, s: seq<Item>, x: Item)
    requires AllOwn(s) && OwnFamily(x.addr)
    ensures multiset(Insert(opts, s, x)) == multiset(s) + multiset{x} && AllOwn(Insert(opts, s, x))
  {
    hide Before;
    if s != [] && !Before(opts, x, s[0]) {
      InsertMembers(opts, s[1..], x);
      assert s == [s[0]] + s[1..];
    }
  }

  lemma {:induction false} InsertSorted(opts: Options, s: seq<Item>, x: Item)
    requires AllOwn(s) && OwnFamily(x.addr) && !(opts.rfc3484 && opts.noSort6)
    requires Sorted(opts, s) && forall i | 0 <= i < |s| :: s[i].index != x.index
    ensures AllOwn(Insert(opts, s, x)) && Sorted(opts, Insert(opts, s, x))
  {
    hide Before, OwnFamily;
    InsertMembers(opts, s, x);
    if s != [] {
      if Before(opts, x, s[0]) {
        forall i | 0 <= i < |s|
          ensures Before(opts, x, s[i])
        {
          BeforeTotal(opts, x, s[0], s[i]);
        }
      } else {
        InsertSorted(opts, s[1..], x);
        BeforeTotal(opts, x, s[0], s[0]);
        InsertMembers(opts, s[1..], x);
        var r := Insert(opts, s[1..], x);
        forall i | 0 <= i < |r|
          ensures Before(opts, s[0], r[i])
        {
          assert r[i] in multiset(r);
        }
      }
    }
  }

  lemma {:induction false} StableSortSorts(opts: Options, s: seq<Item>)
    requires AllOwn(s) && Numbered(s) && !(opts.rfc3484 && opts.noSort6)
    ensures multiset(StableSort(opts, s)) == multiset(s) && Sorted(opts, StableSort(opts, s))
  {
    hide Before, OwnFamily;
    if s != [] {
      var rest := StableSort(opts, s[1..]);
      StableSortSorts(opts, s[1..]);
      InsertMembers(opts, rest, s[0]);
      assert s == [s[0]] + s[1..];
      OtherIndex(s, rest);
      InsertSorted(opts, rest, s[0]);
    }
  }

  lemma OtherIndex(s: seq<Item>, rest: seq<Item>)
    requires s != [] && Numbered(s) && multiset(rest) == multiset(s[1..])
    ensures forall i | 0 <= i < |rest| :: rest[i].index != s[0].index
  {
    forall i | 0 <= i < |rest|
      ensures rest[i].index != s[0].index
    {
      assert rest[i] in multiset(rest);
      assert rest[i] in s[1..];
    }
  }

  /** Whatever the library's sort does: a sorted rearrangement of the addresses is the
      stable one. */
  lemma {:induction false} SortUnique(opts: Options, x: seq<Item>, y: seq<Item>)
    requires AllOwn(x) && AllOwn(y) && !(opts.rfc3484 && opts.noSort6)
    requires multiset(x) == multiset(y) && Sorted(opts, x) && Sorted(opts, y)
    ensures x == y
  {
    hide Before, OwnFamily;
    if x == [] {
      assert |multiset(y)| == 0;
    } else {
      SameFirst(opts, x, y);
      TailMembers(x);
      TailMembers(y);
      SortUnique(opts, x[1..], y[1..]);
      assert x == [x[0]] + x[1..] && y == [y[0]] + y[1..];
    }
  }

  lemma TailMembers(x: seq<Item>)
    requires x != []
    ensures multiset(x[1..]) == multiset(x) - multiset{x[0]}
  {
    assert x == [x[0]] + x[1..];
  }

  lemma SameFirst(opts: Options, x: seq<Item>, y: seq<Item>)
    requires AllOwn(x) && AllOwn(y) && !(opts.rfc3484 && opts.noSort6) && x != []
    requires multiset(x) == multiset(y) && Sorted(opts, x) && Sorted(opts, y)
    ensures y != [] && x[0] == y[0]
  {
    hide Before, OwnFamily;
    assert x[0] in multiset(y);
    assert y[0] in multiset(x);
    BeforeTotal(opts, x[0], y[0], y[0]);
  }

  lemma SortIsStable(opts: Options, s: seq<Item>, r: seq<Item>)
    requires AllOwn(s) && Numbered(s) && !(opts.rfc3484 && opts.noSort6)
    requires AllOwn(r) && multiset(r) == multiset(s) && Sorted(opts, r)
    ensures r == StableSort(opts, s)
  {
    StableSortSorts(opts, s);
    SortUnique(opts, r, StableSort(opts, s));
  }
}
