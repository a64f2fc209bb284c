/** SRV answers: one entry per record in the order of SrvOrder, its addresses taken from the
    additional section, and the walk that looks up the addresses still missing. */
module SrvWalk {
  import opened Bytes
  import opened Host
  import opened Limits
  import opened SrvOrder

  datatype Entry = Entry(target: Name, priority: nat, weight: nat, port: nat, ttl: nat, addrs: seq<Addr>)

  // ------------------------------------------------------- building entries

  function EntryOf(r: Record, addrs: seq<Addr>): Entry {
    Entry(r.target, r.priority, r.weight, r.port, r.ttl, addrs)
  }

  /** The entries are the records, in order, each with the addresses of its target. */
  ghost predicate EntriesOf(rs: seq<Record>, additional: seq<Rr>, opts: Options, entries: seq<Entry>) {
    && |entries| == |rs|
    && forall i | 0 <= i < |rs| ::
         && AddressesOf(additional, opts, rs[i].target).Some?
         && entries[i] == EntryOf(rs[i], AddressesOf(additional, opts, rs[i].target).value)
  }

  method BuildEntries(rs: seq<Record>, additional: seq<Rr>, opts: Options) returns (r: Option<seq<Entry>>)
    ensures r.Some? ==> EntriesOf(rs, additional, opts, r.value)
    ensures r.None? ==> exists i :: 0 <= i < |rs| && AddressesOf(additional, opts, rs[i].target).None?
  {
    var dst: seq<Entry> := [];
    for i := 0 to |rs|
      invariant EntriesOf(rs[..i], additional, opts, dst)
    {
      var addrs := ScanAddresses(additional, opts, rs[i].target);
      if addrs.None? {
        return None;
      }
      dst := dst + [EntryOf(rs[i], addrs.value)];
    }
    assert rs[..|rs|] == rs;
    r := Some(dst);
  }

  // ------------------------------------------------------------------- walk

  datatype WalkCode = WalkVoid | WalkOk | WalkQuery | WalkAlarm | WalkEmpty | WalkRcode

  /** `asked`: the entries a host query was made for, in order. */
  datatype Walk = Walk(entries: seq<Entry>, index: nat, code: WalkCode, asked: seq<nat>)

  datatype WalkOptions = WalkOptions(noWalk: bool, cname: bool, host: Options)

  predicate FindAddr(addrs: seq<Addr>, opts: Options) {
    exists i :: 0 <= i < |addrs| && opts.Enabled(addrs[i].family)
  }

  /** The first entry, from `i` on, without an address. */
  function Missing(entries: seq<Entry>, opts: Options, i: nat): (k: nat)
    requires i <= |entries|
    ensures i <= k <= |entries| && (k < |entries| ==> !FindAddr(entries[k].addrs, opts))
    ensures forall j | i <= j < k :: FindAddr(entries[j].addrs, opts)
    decreases |entries| - i
  {
    if i == |entries| || !FindAddr(entries[i].addrs, opts) then i else Missing(entries, opts, i + 1)
  }

  /** Looks for the next entry to ask for; `starts`: whether the host query can be submitted. */
  function AnswerWalk(w: Walk, opts: WalkOptions, starts: bool): Walk
    requires w.index <= |w.entries|
  {
    if opts.noWalk then w.(code := WalkOk)
    else
      var k := Missing(w.entries, opts.host, w.index);
      if k == |w.entries| then w.(index := k, code := WalkOk)
      else if starts then w.(index := k, asked := w.asked + [k])
      else w.(index := k, code := WalkQuery)
  }

  function FailureOf(code: Code): WalkCode {
    match code
    case CodeAlarm => WalkAlarm
    case CodeEmpty => WalkEmpty
    case CodeRcode => WalkRcode
    case _ => WalkQuery
  }

  /** The answer of the host query for the entry at the index. */
  function OnWalkAnswer(w: Walk, opts: WalkOptions, l: Lookup, starts: bool): Walk
    requires w.index < |w.entries|
  {
    if l.code != CodeOk then w.(code := FailureOf(l.code))
    else
      var e := w.entries[w.index];
      AnswerWalk(w.(entries := w.entries[w.index := e.(addrs := e.addrs + l.addrs)], index := w.index + 1), opts, starts)
  }

  /** RFC 2782 allows no aliases as targets, unless the caller asks for them. */
  function WalkDepth(opts: WalkOptions): nat {
    if opts.cname then CNAME_DEPTH else 0
  }

  /** Everything but the addresses of an entry stays, and those only grow. */
  ghost predicate Kept(base: Entry, e: Entry) {
    base.addrs <= e.addrs && e == base.(addrs := e.addrs)
  }

  ghost predicate Increasing(s: seq<nat>) {
    forall i, j | 0 <= i < j < |s| :: s[i] < s[j]
  }

  /** The state of a walk over the entries `base`. */
  ghost predicate WalkState(base: seq<Entry>, opts: WalkOptions, w: Walk) {
    && |w.entries| == |base| && w.index <= |base|
    && (forall i | 0 <= i < |base| :: Kept(base[i], w.entries[i]))
    && (forall i | w.index <= i < |base| :: w.entries[i] == base[i])
    && (forall i | 0 <= i < w.index :: FindAddr(w.entries[i].addrs, opts.host))
    && Increasing(w.asked)
    && (forall i | 0 <= i < |w.asked| :: w.asked[i] <= w.index && w.asked[i] < |base| && !FindAddr(base[w.asked[i]].addrs, opts.host))
    && (w.code == WalkVoid ==> w.index < |base| && w.asked != [] && w.asked[|w.asked| - 1] == w.index)
    && (w.code == WalkOk ==> opts.noWalk || w.index == |base|)
  }

  lemma AnswerWalkState(base: seq<Entry>, opts: WalkOptions, w: Walk, starts: bool)
    requires |w.entries| == |base| && w.index <= |base| && w.code == WalkVoid
    requires forall i | 0 <= i < |base| :: Kept(base[i], w.entries[i])
    requires forall i | w.index <= i < |base| :: w.entries[i] == base[i]
    requires forall i | 0 <= i < w.index :: FindAddr(w.entries[i].addrs, opts.host)
    requires Increasing(w.asked)
    requires forall i | 0 <= i < |w.asked| :: w.asked[i] < w.index && !FindAddr(base[w.asked[i]].addrs, opts.host)
    ensures WalkState(base, opts, AnswerWalk(w, opts, starts))
    ensures AnswerWalk(w, opts, starts).index >= w.index
  {
    hide FindAddr;
  }

  lemma StartState(base: seq<Entry>, opts: WalkOptions, starts: bool)
    ensures WalkState(base, opts, AnswerWalk(Walk(base, 0, WalkVoid, []), opts, starts))
  {
    AnswerWalkState(base, opts, Walk(base, 0, WalkVoid, []), starts);
  }

  lemma FoundKept(addrs: seq<Addr>, more: seq<Addr>, opts: Options)
    requires FindAddr(addrs, opts) || (more != [] && forall a | a in more :: opts.Enabled(a.family))
    ensures FindAddr(addrs + more, opts)
  {
    if FindAddr(addrs, opts) {
      var i :| 0 <= i < |addrs| && opts.Enabled(addrs[i].family);
      assert (addrs + more)[i] == addrs[i];
    } else {
      assert (addrs + more)[|addrs|] == more[0];
    }
  }

  /** A lookup that succeeds gives its entry an address; the index moves on. */
  lemma OnWalkAnswerState(base: seq<Entry>, opts: WalkOptions, w: Walk, l: Lookup, starts: bool)
    requires WalkState(base, opts, w) && w.code == WalkVoid && LookupOk(opts.host, l)
    ensures WalkState(base, opts, OnWalkAnswer(w, opts, l, starts))
    ensures var r := OnWalkAnswer(w, opts, l, starts); r.code != WalkVoid || r.index > w.index
  {
    hide FindAddr;
    if l.code == CodeOk {
      var e := w.entries[w.index];
      FoundKept(e.addrs, l.addrs, opts.host);
      var w1 := w.(entries := w.entries[w.index := e.(addrs := e.addrs + l.addrs)], index := w.index + 1);
      AnswerWalkState(base, opts, w1, starts);
    }
  }

  /** A target that is an alias of a name with addresses fails its lookup, unless the caller asks
      for aliases: then it takes a chain of more than five to fail. */
  lemma AliasTargets(opts: WalkOptions, rrs: seq<Rr>, target: Name)
    ensures Follow(rrs, opts.host, target, WalkDepth(opts)).TooDeep? <==>
            exists names :: Chain(rrs, opts.host, target, names) && |names| == if opts.cname then 7 else 2
  {
    hide Follow, Chain;
    FollowTooDeep(rrs, opts.host, target, WalkDepth(opts));
  }

  /** Why a walk ends without an address for every entry, by the last answer to the lookup for the
      entry at the index. */
  lemma FailureReasons(w: Walk, opts: WalkOptions, l0: Lookup, depth: nat, answer: Answer, s: bool, starts: bool)
    requires w.index < |w.entries| && w.code == WalkVoid && l0.code == CodeVoid
    requires OnAnswer(l0, opts.host, depth, answer, s).Some? && OnAnswer(l0, opts.host, depth, answer, s).value.code != CodeVoid
    ensures var l, more := OnAnswer(l0, opts.host, depth, answer, s).value, l0.qType.Inet6? && !opts.host.noInet;
            var code := OnWalkAnswer(w, opts, l, starts).code;
            && (code == WalkAlarm <==> answer == NoAnswer(true))
            && (code == WalkRcode <==> answer.Answer? && answer.rcode != 0 && !more)
            && (code == WalkEmpty <==> l.code == CodeEmpty)
            && (l.code != CodeOk ==> code != WalkVoid && code != WalkOk)
            && (l.code == CodeOk ==> code == WalkVoid || code == WalkOk || (code == WalkQuery && !starts))
  {
    hide OnAnswer, FindAddr;
    ResultReasons(l0, opts.host, depth, answer, s);
  }

  /** A walk that was given the results of host queries, one after the other. */
  ghost function After(base: seq<Entry>, opts: WalkOptions, s0: bool, results: seq<(Lookup, bool)>): Walk
  {
    if results == [] then AnswerWalk(Walk(base, 0, WalkVoid, []), opts, s0)
    else
      var w := After(base, opts, s0, results[..|results| - 1]);
      var (l, starts) := results[|results| - 1];
      if w.code != WalkVoid || w.index >= |w.entries| then w else OnWalkAnswer(w, opts, l, starts)
  }

  /** However the host queries end: the walk ends after at most one result per entry, asks
      at most once for an entry and only where no address was given, and changes nothing but
      the addresses. When it ends well with walking enabled, every entry has an address of
      an enabled family. */
  lemma {:induction false} WalkEnds(base: seq<Entry>, opts: WalkOptions, s0: bool, results: seq<(Lookup, bool)>)
    requires forall i | 0 <= i < |results| :: LookupOk(opts.host, results[i].0)
    ensures var w := After(base, opts, s0, results);
            && WalkState(base, opts, w)
            && (w.code == WalkVoid ==> w.index >= |results|)
            && (|results| >= |base| ==> w.code != WalkVoid)
            && (w.code == WalkOk && !opts.noWalk ==>
                  forall i | 0 <= i < |base| :: FindAddr(w.entries[i].addrs, opts.host))
  {
    hide FindAddr;
    if results == [] {
      StartState(base, opts, s0);
    } else {
      var prev := results[..|results| - 1];
      WalkEnds(base, opts, s0, prev);
      var w := After(base, opts, s0, prev);
      var (l, starts) := results[|results| - 1];
      if w.code == WalkVoid {
        OnWalkAnswerState(base, opts, w, l, starts);
      }
    }
  }

  /** From the records to the end of the walk, whatever is drawn and however it goes: the
      entries are the ordered records, unchanged but for addresses. They are the records of the
      answer, each once, exactly where the sort is right or never inserts, and in
      non-decreasing priority exactly where it is right or no priority number comes after a
      lower one. */
  lemma AnswerOrder(rs: seq<Record>, draws: Draws, additional: seq<Rr>, base: seq<Entry>,
                    opts: WalkOptions, s0: bool, results: seq<(Lookup, bool)>, repaired: bool)
    requires InRange(draws) && EntriesOf(Weighted(Prioritized(rs, repaired), draws, 0), additional, opts.host, base)
    requires forall i | 0 <= i < |results| :: LookupOk(opts.host, results[i].0)
    ensures var order, w := Weighted(Prioritized(rs, repaired), draws, 0), After(base, opts, s0, results);
            && (multiset(order) == multiset(rs) <==> repaired || NeverInserted(rs)) && |w.entries| == |order|
            && (forall i | 0 <= i < |order| :: w.entries[i] == EntryOf(order[i], w.entries[i].addrs))
            && ((forall i, j | 0 <= i < j < |order| :: w.entries[i].priority <= w.entries[j].priority)
                  <==> repaired || Descending(rs))
  {
    hide FindAddr, SortByPriority, SortAsWritten, Weighted, NeverInserted, Descending;
    OrderedAnswer(rs, draws);
    OrderedAnswerAsWritten(rs, draws);
    AsWrittenExact(rs);
    WalkEnds(base, opts, s0, results);
  }

  // ------------------------------------------------------------ on the query

  class SrvQuery {
    const options: WalkOptions
    var answerSrvList: seq<Entry>
    var walkIndex: nat
    var answerCode: WalkCode
    ghost var asked: seq<nat>
    ghost const base: seq<Entry>

    ghost function View(): Walk reads this {
      Walk(answerSrvList, walkIndex, answerCode, asked)
    }

    ghost predicate Valid() reads this {
      WalkState(base, options, View())
    }

    constructor (options: WalkOptions, entries: seq<Entry>, starts: bool)
      ensures this.options == options && base == entries && Valid()
      ensures View() == AnswerWalk(Walk(entries, 0, WalkVoid, []), options, starts)
    {
      this.options, base := options, entries;
      answerSrvList, walkIndex, answerCode, asked := entries, 0, WalkVoid, [];
      new;
      StartState(base, options, starts);
      Advance(starts);
    }

    /** Scans the entries from the index for one without an address. */
    method Advance(starts: bool)
      requires answerCode == WalkVoid && walkIndex <= |answerSrvList|
      modifies this
      ensures View() == AnswerWalk(old(View()), options, starts)
    {
      if options.noWalk {
        answerCode := WalkOk;
        return;
      }
      ghost var from := walkIndex;
      while walkIndex < |answerSrvList|
        invariant from <= walkIndex <= |answerSrvList|
        invariant answerSrvList == old(answerSrvList) && answerCode == WalkVoid && asked == old(asked)
        invariant Missing(answerSrvList, options.host, from) == Missing(answerSrvList, options.host, walkIndex)
      {
        if !FindAddr(answerSrvList[walkIndex].addrs, options.host) {
          if starts {
            asked := asked + [walkIndex];
          } else {
            answerCode := WalkQuery;
          }
          return;
        }
        walkIndex := walkIndex + 1;
      }
      answerCode := WalkOk;
    }

    method WalkAnswer(query: HostQuery, starts: bool)
      requires Valid() && answerCode == WalkVoid
      requires query.Valid() && query.options == options.host && query.maxCnameDepth == WalkDepth(options)
      requires query.answerCode != CodeVoid
      modifies this
      ensures Valid() && old(walkIndex) < |old(answerSrvList)|
      ensures View() == OnWalkAnswer(old(View()), options, query.View(), starts)
    {
      hide FindAddr, AnswerWalk, Missing;
      OnWalkAnswerState(base, options, View(), query.View(), starts);
      if query.answerCode != CodeOk {
        answerCode := FailureOf(query.answerCode);
        return;
      }
      var e := answerSrvList[walkIndex];
      answerSrvList := answerSrvList[walkIndex := e.(addrs := e.addrs + query.answerAddrList)];
      walkIndex := walkIndex + 1;
      Advance(starts);
    }
  }
}
