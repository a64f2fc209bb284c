/** The query state machine on values: every status change as a function of the
    old state, and the invariant all reachable states share. The classes of
    module Fsm are proved against these functions. */
module FsmModel {
  import opened Families
  import opened Limits
  import opened Rotation

  datatype Status = Void | UdpSend | UdpRecv | TcpConnect | TcpSend | TcpHead | TcpBody

  predicate TcpStatus(s: Status) {
    s.TcpConnect? || s.TcpSend? || s.TcpHead? || s.TcpBody?
  }

  datatype Timer = NoTimer | UdpReadTimer | TcpHeadTimer | TcpBodyTimer

  /** Only the waits for an answer are protected by a timeout. */
  function TimerFor(s: Status): Timer {
    match s
    case UdpRecv => UdpReadTimer
    case TcpHead => TcpHeadTimer
    case TcpBody => TcpBodyTimer
    case _ => NoTimer
  }

  datatype Code =
    | CodeVoid | CodeOk | CodeTimeout | CodeSend | CodeConnect
    | CodeLaunchSearchList | CodeConcatSearchList
    | CodeAnswerOpcode | CodeAnswerFlagQr | CodeAnswerFlagRd | CodeAnswerFlagRa | CodeAnswerFlagZ
    | CodeAnswerTrunc

  /** The answer buffer: its allocated size and how much of it is filled. */
  datatype Answer = NoAnswer | Answer(size: nat, len: nat)

  datatype Query = Query(
    id: nat,
    status: Status,
    turn: Turn,
    search: int,
    code: Code,
    timer: Timer,
    finish: bool,       // an immediate finish is scheduled
    calls: nat,         // callbacks made since the submit
    tries: nat,         // server attempts since the submit
    answer: Answer,
    rcode: nat,         // saved from the answer header
    tc: bool,           // saved from the answer header
    options: Options)

  /** `nameLen`: the length of the name asked for, encoded. */
  datatype Options = Options(search: bool, needRa: bool, nameLen: nat)

  datatype Server = Server(open: bool, connecters: int, writers: int, readers: int, headLen: int)

  datatype State = State(
    queries: seq<Query>,
    servers: seq<Server>,
    udpWriters: int, udpReaders: int, udp6Writers: int, udp6Readers: int,
    nextServer: nat,
    nextId: nat)

  /** `suffixes`: the encoded lengths of the search suffixes. Four steps of the program are
      wrong: the clean-up of a deleted query waiting to send over TCP, of a connection closed
      during a body, and of the buffer of a body left unfinished, and the taking of a header
      for a query that waits on another connection. They are mended where `repaired` is set;
      otherwise this is the program as it stands. */
  datatype Config = Config(families: seq<Family>, retry: int, suffixes: seq<nat>, repaired: bool) {
    function N(): nat { |families| }
    function SearchSize(): nat { |suffixes| }
    ghost predicate Ok() { |families| > 0 }
  }

  // ------------------------------------------------------------- counters

  /** The shared counter a query in some status is included in. */
  datatype Slot = Nowhere | UdpWriters(family: Family) | UdpReaders(family: Family)
                | Connecters(server: nat) | Writers(server: nat) | Readers(server: nat)

  function SlotFor(cfg: Config, s: Status, curr: nat): Slot
    requires curr < cfg.N()
  {
    match s
    case Void => Nowhere
    case UdpSend => UdpWriters(cfg.families[curr])
    case UdpRecv => UdpReaders(cfg.families[curr])
    case TcpConnect => Connecters(curr)
    case TcpSend => Writers(curr)
    case TcpHead => Readers(curr)
    case TcpBody => Readers(curr)
  }

  function SlotOf(cfg: Config, q: Query): Slot
    requires TurnOk(cfg.N(), q.turn)
  {
    SlotFor(cfg, q.status, q.turn.curr)
  }

  ghost predicate SlotIn(n: nat, slot: Slot) {
    (slot.Connecters? || slot.Writers? || slot.Readers?) ==> slot.server < n
  }

  function Counter(st: State, slot: Slot): int
    requires SlotIn(|st.servers|, slot)
  {
    match slot
    case Nowhere => 0
    case UdpWriters(f) => if f.Inet? then st.udpWriters else st.udp6Writers
    case UdpReaders(f) => if f.Inet? then st.udpReaders else st.udp6Readers
    case Connecters(s) => st.servers[s].connecters
    case Writers(s) => st.servers[s].writers
    case Readers(s) => st.servers[s].readers
  }

  function Bump(st: State, slot: Slot, delta: int): (r: State)
    requires SlotIn(|st.servers|, slot)
    ensures |r.servers| == |st.servers|
  {
    match slot
    case Nowhere => st
    case UdpWriters(Inet) => st.(udpWriters := st.udpWriters + delta)
    case UdpWriters(Inet6) => st.(udp6Writers := st.udp6Writers + delta)
    case UdpReaders(Inet) => st.(udpReaders := st.udpReaders + delta)
    case UdpReaders(Inet6) => st.(udp6Readers := st.udp6Readers + delta)
    case Connecters(s) => st.(servers := st.servers[s := st.servers[s].(connecters := st.servers[s].connecters + delta)])
    case Writers(s) => st.(servers := st.servers[s := st.servers[s].(writers := st.servers[s].writers + delta)])
    case Readers(s) => st.(servers := st.servers[s := st.servers[s].(readers := st.servers[s].readers + delta)])
  }

  lemma BumpCounter(st: State, slot: Slot, delta: int, b: Slot)
    requires SlotIn(|st.servers|, slot) && SlotIn(|st.servers|, b)
    ensures Counter(Bump(st, slot, delta), b) == Counter(st, b) + if b == slot && slot != Nowhere then delta else 0
  {
  }

  /** How many queries are in the statuses that `slot` counts. */
  ghost function Count(cfg: Config, qs: seq<Query>, slot: Slot): nat {
    if qs == [] then 0
    else
      var last := qs[|qs| - 1];
      Count(cfg, qs[..|qs| - 1], slot)
      + if TurnOk(cfg.N(), last.turn) && SlotOf(cfg, last) == slot then 1 else 0
  }

  ghost function One(cfg: Config, q: Query, slot: Slot): nat
    requires TurnOk(cfg.N(), q.turn)
  {
    if SlotOf(cfg, q) == slot then 1 else 0
  }

  lemma {:induction false} CountUpdate(cfg: Config, qs: seq<Query>, i: nat, q: Query, slot: Slot)
    requires i < |qs| && TurnOk(cfg.N(), qs[i].turn) && TurnOk(cfg.N(), q.turn)
    ensures Count(cfg, qs[i := q], slot) == Count(cfg, qs, slot) - One(cfg, qs[i], slot) + One(cfg, q, slot)
    ensures Count(cfg, qs, slot) >= One(cfg, qs[i], slot)
  {
    var m := |qs| - 1;
    if i < m {
      CountUpdate(cfg, qs[..m], i, q, slot);
      assert qs[i := q][..m] == qs[..m][i := q];
    } else {
      assert qs[i := q][..m] == qs[..m];
    }
  }

  lemma {:induction false} CountWitness(cfg: Config, qs: seq<Query>, slot: Slot) returns (i: nat)
    requires Count(cfg, qs, slot) > 0
    ensures i < |qs| && TurnOk(cfg.N(), qs[i].turn) && SlotOf(cfg, qs[i]) == slot
  {
    var m := |qs| - 1;
    if TurnOk(cfg.N(), qs[m].turn) && SlotOf(cfg, qs[m]) == slot {
      i := m;
    } else {
      i := CountWitness(cfg, qs[..m], slot);
    }
  }

  // ------------------------------------------------------------ invariant

  ghost predicate CountersAgree(cfg: Config, st: State) {
    && |st.servers| == cfg.N()
    && forall slot | SlotIn(cfg.N(), slot) && slot != Nowhere :: Counter(st, slot) == Count(cfg, st.queries, slot)
  }

  function SuffixesLeft(cfg: Config, q: Query): nat {
    Max0(cfg.SearchSize() - 1 - q.search)
  }

  /** The name server did not have the name, and there is a suffix left to try. */
  predicate TriesSuffix(cfg: Config, q: Query) {
    q.options.search && q.code.CodeOk? && (q.rcode == 2 || q.rcode == 3) && SuffixesLeft(cfg, q) > 0
  }

  /** Server attempts one name may take. */
  function AttemptsPerName(cfg: Config): nat {
    Times(Max0(cfg.retry) + 1, cfg.N())
  }

  /** Server attempts one submitted query may take. */
  function AttemptsPerQuery(cfg: Config): nat {
    Times(cfg.SearchSize() + 1, AttemptsPerName(cfg))
  }

  /** Server attempts the query can still start, including those of the search suffixes. */
  function AttemptsLeft(cfg: Config, q: Query): nat
    requires TurnOk(cfg.N(), q.turn)
  {
    Times(SuffixesLeft(cfg, q), AttemptsPerName(cfg)) + SwitchesLeft(cfg.N(), q.turn)
  }

  /** The bound of the documentation: (1 + search suffixes) * servers * (retries + 1). */
  lemma AttemptsPerQueryProduct(cfg: Config)
    ensures AttemptsPerQuery(cfg) == (1 + cfg.SearchSize()) * cfg.N() * (Max0(cfg.retry) + 1)
  {
    var n, r := cfg.N(), Max0(cfg.retry) + 1;
    TimesIsMul(r, n);
    TimesIsMul(cfg.SearchSize() + 1, AttemptsPerName(cfg));
    assert (cfg.SearchSize() + 1) * (r * n) == (1 + cfg.SearchSize()) * n * r;
  }

  ghost predicate Live(q: Query) {
    q.calls == 0 && !q.finish
  }

  /** Some of an answer is in the buffer, and its body is not being received. */
  predicate Unfinished(q: Query) {
    q.answer.Answer? && q.answer.len < q.answer.size && !q.status.TcpBody?
  }

  /** A query that stopped or waits for the start of an answer has no buffer, but that the
      program as it stands keeps the one of an unfinished body while it goes on over TCP. */
  ghost predicate BufferOk(cfg: Config, q: Query, s: Status) {
    q.answer.NoAnswer? || (!cfg.repaired && TcpStatus(s) && q.answer.len < q.answer.size)
  }

  ghost predicate AnswerOk(cfg: Config, q: Query) {
    && (q.answer.Answer? ==> 0 < q.answer.len <= q.answer.size <= 65535)
    && (q.status.TcpBody? ==> q.answer.Answer? && MSG_HEADER <= q.answer.len < q.answer.size && MSG_LOW <= q.answer.size)
    && (!q.status.TcpBody? && !q.status.Void? ==> BufferOk(cfg, q, q.status))
    && (q.code.CodeOk? ==> q.answer.Answer? && q.answer.len == q.answer.size)
  }

  ghost predicate QueryOk(cfg: Config, q: Query) {
    && TurnOk(cfg.N(), q.turn)
    && q.turn.retries <= Max0(cfg.retry)
    && -1 <= q.search < Max0(cfg.SearchSize())
    && q.timer == TimerFor(q.status)
    && (!q.status.Void? ==> Live(q) && q.code.CodeVoid?)
    && (q.finish ==> q.calls == 0 && !q.code.CodeVoid? && !q.code.CodeOk? && (cfg.repaired ==> q.answer.NoAnswer?))
    && q.calls <= 1
    && (q.calls == 1 ==> !q.finish && !q.code.CodeVoid? && !(q.code.CodeOk? && q.tc) && !TriesSuffix(cfg, q))
    && AnswerOk(cfg, q)
    && q.tries <= AttemptsPerQuery(cfg)
    && (Live(q) ==> q.tries + AttemptsLeft(cfg, q) <= AttemptsPerQuery(cfg))
  }

  /** At most one query per connection is in the middle of an answer. Headers are matched to
      queries by id alone, so only the repaired program keeps it. */
  ghost predicate OneBody(st: State) {
    forall i, j | 0 <= i < j < |st.queries| && st.queries[i].status.TcpBody? && st.queries[j].status.TcpBody? ::
      st.queries[i].turn.curr != st.queries[j].turn.curr
  }

  ghost predicate HeadsOk(st: State) {
    forall i | 0 <= i < |st.queries| && st.queries[i].status.TcpHead? && st.queries[i].turn.curr < |st.servers| ::
      0 <= st.servers[st.queries[i].turn.curr].headLen <= TCP_HEADER
  }

  ghost predicate Shape(cfg: Config, st: State) {
    && |st.servers| == cfg.N()
    && forall i | 0 <= i < |st.queries| :: TurnOk(cfg.N(), st.queries[i].turn)
  }

  ghost predicate Consistent(cfg: Config, st: State) {
    && CountersAgree(cfg, st)
    && (forall i | 0 <= i < |st.queries| :: QueryOk(cfg, st.queries[i]))
    && (cfg.repaired ==> OneBody(st))
    && HeadsOk(st)
  }

  /** Kept by every single status change, also in the middle of an event. */
  ghost predicate Core(cfg: Config, st: State) {
    && cfg.Ok() && Shape(cfg, st) && st.nextServer < cfg.N() && st.nextId < 0x1_0000
    && Consistent(cfg, st)
  }

  lemma QueryFacts(cfg: Config, st: State, i: nat)
    requires Core(cfg, st) && i < |st.queries|
    ensures QueryOk(cfg, st.queries[i])
  {
  }

  lemma TimerFacts(cfg: Config, st: State, i: nat)
    requires Core(cfg, st) && i < |st.queries|
    ensures st.queries[i].timer == TimerFor(st.queries[i].status)
  {
  }

  lemma CounterNonNegative(cfg: Config, st: State, slot: Slot)
    requires Core(cfg, st) && SlotIn(cfg.N(), slot)
    ensures Counter(st, slot) >= 0
  {
    assert slot != Nowhere ==> Counter(st, slot) == Count(cfg, st.queries, slot);
  }

  ghost predicate OpenAt(st: State, i: nat)
    requires i < |st.queries|
  {
    TcpStatus(st.queries[i].status) && st.queries[i].turn.curr < |st.servers| ==> st.servers[st.queries[i].turn.curr].open
  }

  /** A query that was started waits for something, is about to finish, or has called back. */
  ghost predicate Waiting(q: Query) {
    !q.status.Void? || q.finish || q.calls > 0 || (q.tries == 0 && q.code.CodeVoid?)
  }

  ghost predicate Settled(st: State, i: nat)
    requires i < |st.queries|
  {
    OpenAt(st, i) && Waiting(st.queries[i])
  }

  /** Holds between events: a query in a TCP status has an open connection, and every query
      that was started waits for something, is about to finish or has called back. */
  ghost predicate Inv(cfg: Config, st: State) {
    && Core(cfg, st)
    && forall i | 0 <= i < |st.queries| :: Settled(st, i)
  }

  // ----------------------------------------------------- single transitions

  /** The six done routines: stop waiting, in whatever status the query is. */
  function Done(cfg: Config, st: State, i: nat): State
    requires |st.servers| == cfg.N() && i < |st.queries| && TurnOk(cfg.N(), st.queries[i].turn)
  {
    var q := st.queries[i];
    Bump(st, SlotOf(cfg, q), -1).(queries := st.queries[i := q.(status := Void, timer := NoTimer)])
  }

  /** The six want routines: start waiting in status `s`. */
  function Want(cfg: Config, st: State, i: nat, s: Status): State
    requires |st.servers| == cfg.N() && i < |st.queries| && TurnOk(cfg.N(), st.queries[i].turn)
  {
    var q := st.queries[i].(status := s, timer := TimerFor(s));
    var st1 := Bump(st, SlotOf(cfg, q), 1).(queries := st.queries[i := q]);
    if s.TcpHead? then
      st1.(servers := st1.servers[q.turn.curr := st1.servers[q.turn.curr].(headLen := 0)])
    else st1
  }

  lemma DoneShape(cfg: Config, st: State, i: nat)
    requires |st.servers| == cfg.N() && i < |st.queries| && TurnOk(cfg.N(), st.queries[i].turn)
    ensures var r := Done(cfg, st, i);
            && r.queries == st.queries[i := st.queries[i].(status := Void, timer := NoTimer)]
            && |r.servers| == |st.servers|
            && (forall k | 0 <= k < cfg.N() ::
                  r.servers[k].open == st.servers[k].open && r.servers[k].headLen == st.servers[k].headLen)
            && r.nextServer == st.nextServer && r.nextId == st.nextId
  {
  }

  lemma DoneCounters(cfg: Config, st: State, i: nat)
    requires Core(cfg, st) && i < |st.queries|
    ensures CountersAgree(cfg, Done(cfg, st, i))
    ensures SlotOf(cfg, st.queries[i]) != Nowhere ==> Counter(st, SlotOf(cfg, st.queries[i])) > 0
  {
    hide QueryOk, OneBody, HeadsOk;
    var q := st.queries[i];
    var q' := q.(status := Void, timer := NoTimer);
    forall slot | SlotIn(cfg.N(), slot) && slot != Nowhere
      ensures Counter(Done(cfg, st, i), slot) == Count(cfg, st.queries[i := q'], slot)
      ensures Counter(st, slot) >= One(cfg, q, slot)
    {
      CountUpdate(cfg, st.queries, i, q', slot);
      BumpCounter(st, SlotOf(cfg, q), -1, slot);
    }
  }

  lemma DoneCore(cfg: Config, st: State, i: nat)
    requires Core(cfg, st) && i < |st.queries|
    ensures Core(cfg, Done(cfg, st, i))
    ensures SlotOf(cfg, st.queries[i]) != Nowhere ==> Counter(st, SlotOf(cfg, st.queries[i])) > 0
  {
    hide CountersAgree, Bump;
    DoneCounters(cfg, st, i);
    DoneShape(cfg, st, i);
    var r := Done(cfg, st, i);
    assert QueryOk(cfg, r.queries[i]) by {
      assert AttemptsLeft(cfg, r.queries[i]) == AttemptsLeft(cfg, st.queries[i]);
    }
    assert forall k | 0 <= k < |r.queries| && k != i :: r.queries[k] == st.queries[k];
  }

  /** Whether a query may enter status `s`. */
  ghost predicate CanWant(cfg: Config, st: State, i: nat, s: Status)
    requires i < |st.queries|
  {
    var q := st.queries[i];
    && q.status.Void? && Live(q) && q.code.CodeVoid?
    && (!s.TcpBody? && !s.Void? ==> BufferOk(cfg, q, s))
    && (s.TcpBody? ==>
          && AnswerOk(cfg, q.(status := s))
          && (cfg.repaired ==> NoBodyBut(st, i)))
  }

  /** No query but `i` receives a body on the connection of `i`. */
  ghost predicate NoBodyBut(st: State, i: nat)
    requires i < |st.queries|
  {
    forall j | 0 <= j < |st.queries| && j != i ::
      st.queries[j].status.TcpBody? ==> st.queries[j].turn.curr != st.queries[i].turn.curr
  }

  lemma WantShape(cfg: Config, st: State, i: nat, s: Status)
    requires |st.servers| == cfg.N() && i < |st.queries| && TurnOk(cfg.N(), st.queries[i].turn)
    ensures var r := Want(cfg, st, i, s);
            && r.queries == st.queries[i := st.queries[i].(status := s, timer := TimerFor(s))]
            && |r.servers| == |st.servers|
            && (forall k | 0 <= k < cfg.N() :: r.servers[k].open == st.servers[k].open)
            && (forall k | 0 <= k < cfg.N() ::
                  r.servers[k].headLen == if s.TcpHead? && k == st.queries[i].turn.curr then 0 else st.servers[k].headLen)
            && r.nextServer == st.nextServer && r.nextId == st.nextId
  {
  }

  lemma WantCounters(cfg: Config, st: State, i: nat, s: Status)
    requires Core(cfg, st) && i < |st.queries| && st.queries[i].status.Void?
    ensures CountersAgree(cfg, Want(cfg, st, i, s))
  {
    hide QueryOk, OneBody, HeadsOk;
    var q := st.queries[i];
    var q' := q.(status := s, timer := TimerFor(s));
    forall slot | SlotIn(cfg.N(), slot) && slot != Nowhere
      ensures Counter(Want(cfg, st, i, s), slot) == Count(cfg, st.queries[i := q'], slot)
    {
      CountUpdate(cfg, st.queries, i, q', slot);
      BumpCounter(st, SlotOf(cfg, q'), 1, slot);
    }
  }

  lemma WantCore(cfg: Config, st: State, i: nat, s: Status)
    requires Core(cfg, st) && i < |st.queries| && CanWant(cfg, st, i, s)
    ensures Core(cfg, Want(cfg, st, i, s))
  {
    hide CountersAgree, Bump;
    WantCounters(cfg, st, i, s);
    WantShape(cfg, st, i, s);
    var r := Want(cfg, st, i, s);
    assert QueryOk(cfg, r.queries[i]) by {
      assert AttemptsLeft(cfg, r.queries[i]) == AttemptsLeft(cfg, st.queries[i]);
    }
    assert forall k | 0 <= k < |r.queries| && k != i :: r.queries[k] == st.queries[k];
    WantHeads(cfg, st, i, s);
  }

  lemma WantHeads(cfg: Config, st: State, i: nat, s: Status)
    requires Core(cfg, st) && i < |st.queries|
    ensures HeadsOk(Want(cfg, st, i, s))
  {
    WantShape(cfg, st, i, s);
  }
}
