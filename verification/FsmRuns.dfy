/** Whole runs of the query state machine. */
module FsmRuns {
  import opened Families
  import opened FsmInvariant
  import opened FsmModel
  import opened FsmSteps
  import opened Limits
  import opened Rotation
  import opened RuliList

  // -------------------------------------------------------- one event

  lemma SameQueriesGood(cfg: Config, st: State, st1: State, o: Outcome)
    requires st1.queries == st.queries && Good(cfg, st1, o)
    ensures Good(cfg, st, o)
  {
    hide Consistent;
    if o.Progress? {
      var i :| 0 <= i < |st1.queries| && Lower(cfg, st1, o.state, [i]);
      assert Lower(cfg, st, o.state, [i]);
    }
  }

  lemma HeadLenInv(cfg: Config, st: State, s: nat, len: int)
    requires Inv(cfg, st) && s < cfg.N() && 0 <= len <= TCP_HEADER
    ensures Inv(cfg, SetHeadLen(st, s, len))
  {
    hide Consistent;
    SetHeadLenCore(cfg, st, s, len);
    forall j | 0 <= j < |st.queries|
      ensures Settled(SetHeadLen(st, s, len), j)
    {
      assert Settled(st, j);
    }
  }

  /** A connection with readers, none of them in a body, has one waiting for a header. */
  lemma HeadReader(cfg: Config, st: State, s: nat) returns (i: nat)
    requires Inv(cfg, st) && s < cfg.N() && st.servers[s].readers > 0
    requires FirstBody(st.queries, s, 0) == |st.queries|
    ensures i < |st.queries| && st.queries[i].status.TcpHead? && st.queries[i].turn.curr == s
    ensures 0 <= st.servers[s].headLen <= TCP_HEADER
  {
    i := CounterWitness(cfg, st, Readers(s));
  }

  /** The header of the next answer on connection `s` is complete. */
  lemma FullHead(cfg: Config, st: State, s: nat, header: Header, env: Env)
    requires Inv(cfg, st) && s < cfg.N() && st.servers[s].readers > 0
    requires FirstBody(st.queries, s, 0) == |st.queries| && header.msgLen < 0x1_0000
    ensures Good(cfg, st, OnFullHead(cfg, st, s, header, env))
    ensures OnFullHead(cfg, st, s, header, env).Abort? <==> FullHeadAborts(cfg, st, s, header, env)
  {
    hide Consistent;
    var i := FirstWithId(st.queries, header.id, 0);
    if Unusable(cfg, st, s, header) {
      var reader := HeadReader(cfg, st, s);
      BrokenGood(cfg, st, s, reader, env);
    } else if st.queries[i].status.TcpHead? {
      HeadGood(cfg, st, i, header, env);
    }
  }

  lemma HeadBroken(cfg: Config, st: State, s: nat, received: RecvResult, header: Header, env: Env)
    requires Inv(cfg, st) && s < cfg.N() && st.servers[s].readers > 0
    requires FirstBody(st.queries, s, 0) == |st.queries| && !received.Bytes?
    ensures Good(cfg, st, OnHead(cfg, st, s, received, header, env))
    ensures OnHead(cfg, st, s, received, header, env).Abort? <==> HeadAborts(cfg, st, s, received, header, env)
  {
    hide Consistent;
    var reader := HeadReader(cfg, st, s);
    BrokenGood(cfg, st, s, reader, env);
  }

  lemma TcpReadableStep(cfg: Config, st: State, e: Event, env: Env)
    requires Inv(cfg, st) && Enabled(cfg, st, e) && e.TcpReadable? && !PartialRead(st, e)
    ensures var o := OnTcpReadable(cfg, st, e.server, e.received, e.header, env);
            (o.Abort? <==> Aborts(cfg, st, e, env)) && Good(cfg, st, o)
  {
    hide Consistent, OnBody, OnHead, BodyAborts, HeadAborts, ResultFails;
    var i := FirstBody(st.queries, e.server, 0);
    if i < |st.queries| {
      QueryFacts(cfg, st, i);
      BodyStep(cfg, st, i, e.received, env);
    } else if e.received.Bytes? {
      HeadStep(cfg, st, e, env);
    } else {
      HeadBroken(cfg, st, e.server, e.received, e.header, env);
    }
  }

  lemma BodyStep(cfg: Config, st: State, i: nat, received: RecvResult, env: Env)
    requires Inv(cfg, st) && i < |st.queries| && st.queries[i].status.TcpBody?
    requires received.Bytes? && st.queries[i].answer.Answer? ==> received.rd == st.queries[i].answer.size - st.queries[i].answer.len
    ensures st.queries[i].answer.Answer?
    ensures var o := OnBody(cfg, st, i, received, env);
            (o.Abort? <==> BodyAborts(cfg, st, i, received, env)) && Good(cfg, st, o)
  {
    hide Consistent, ConnectNextFails, QueryDone;
    QueryFacts(cfg, st, i);
    BodyGood(cfg, st, i, received, env);
    BrokenGood(cfg, st, st.queries[i].turn.curr, i, env);
  }

  lemma HeadStep(cfg: Config, st: State, e: Event, env: Env)
    requires Inv(cfg, st) && Enabled(cfg, st, e) && e.TcpReadable? && !PartialRead(st, e) && e.received.Bytes?
    requires FirstBody(st.queries, e.server, 0) == |st.queries|
    ensures var o := OnHead(cfg, st, e.server, e.received, e.header, env);
            (o.Abort? <==> HeadAborts(cfg, st, e.server, e.received, e.header, env)) && Good(cfg, st, o)
  {
    hide Consistent, OnFullHead, FullHeadAborts;
    var reader := HeadReader(cfg, st, e.server);
    if st.servers[e.server].headLen < TCP_HEADER {
      var st1 := SetHeadLen(st, e.server, TCP_HEADER);
      HeadLenInv(cfg, st, e.server, TCP_HEADER);
      FullHead(cfg, st1, e.server, e.header, env);
      SameQueriesGood(cfg, st, st1, OnHead(cfg, st, e.server, e.received, e.header, env));
    }
  }

  lemma UdpWritableStep(cfg: Config, st: State, sent: SendResult)
    requires Inv(cfg, st) && Enabled(cfg, st, UdpWritable(sent))
    ensures var o := OnUdpWritable(cfg, st, sent); !o.Abort? && Good(cfg, st, o)
  {
    hide Consistent;
    var i := FirstIn(st.queries, UdpSend, 0);
    ResendGood(cfg, st, i, CodeSend);
    SentGood(cfg, st, i, UdpRecv);
  }

  lemma ConnectResultStep(cfg: Config, st: State, s: nat, connected: bool, env: Env)
    requires Inv(cfg, st) && Enabled(cfg, st, ConnectResult(s, connected))
    ensures var o := OnConnectResult(cfg, st, s, connected, env);
            (o.Abort? <==> !connected && ConnectNextFails(cfg, st, s, env)) && Good(cfg, st, o)
  {
    hide Consistent, ConnectNextFails;
    var i := CounterWitness(cfg, st, Connecters(s));
    ScanHoldsBetween(cfg, st);
    if connected { ConnectedGood(cfg, st, s, i); } else { BrokenGood(cfg, st, s, i, env); }
  }

  lemma TcpWritableStep(cfg: Config, st: State, s: nat, sent: SendResult, env: Env)
    requires Inv(cfg, st) && Enabled(cfg, st, TcpWritable(s, sent))
    ensures var o := OnTcpWritable(cfg, st, s, sent, env);
            (o.Abort? <==> sent.SendFail? && ConnectNextFails(cfg, st, s, env)) && Good(cfg, st, o)
  {
    hide Consistent, ConnectNextFails;
    var w := CounterWitness(cfg, st, Writers(s));
    BrokenGood(cfg, st, s, w, env);
    SentGood(cfg, st, FirstIn(st.queries, TcpSend, 0), TcpHead);
  }

  /** Every event but a submit, a delete and a partial read: it keeps the invariant, it
      lowers a measure, and it aborts exactly in the listed situations. */
  lemma StepGood(cfg: Config, st: State, e: Event, env: Env)
    requires Inv(cfg, st) && Enabled(cfg, st, e)
    requires !e.Submit? && !e.Delete? && !PartialRead(st, e)
    ensures Step(cfg, st, e, env).Abort? <==> Aborts(cfg, st, e, env)
    ensures Good(cfg, st, Step(cfg, st, e, env))
  {
    hide Consistent, ConnectNextFails, BodyAborts, HeadAborts, UdpAnswerFails, DatagramAborts, MoveOnFails, Stuck;
    match e
    case UdpWritable(sent) => UdpWritableStep(cfg, st, sent);
    case UdpReadable(family, d) =>
      UdpReadableGood(cfg, st, family, d, env);
      UdpReadableSafe(cfg, st, d, env);
    case UdpTimeout(i) => QueryFacts(cfg, st, i); ResendGood(cfg, st, i, CodeTimeout);
    case HeadTimeout(i) => ReadTimeoutStep(cfg, st, i, env);
    case BodyTimeout(i) => ReadTimeoutStep(cfg, st, i, env);
    case ConnectResult(s, connected) => ConnectResultStep(cfg, st, s, connected, env);
    case TcpWritable(s, sent) => TcpWritableStep(cfg, st, s, sent, env);
    case TcpReadable(s, received, header) => TcpReadableStep(cfg, st, e, env);
    case FinishNow(i) => FinishGood(cfg, st, i, env);
  }

  lemma UdpReadableSafe(cfg: Config, st: State, d: Datagram, env: Env)
    requires Inv(cfg, st)
    ensures d.Datagram? ==>
              var i := FirstWithId(st.queries, d.id, 0);
              i < |st.queries| ==> (UdpAnswerFails(cfg, st, i, d, env) <==> DatagramAborts(cfg, st.queries[i], d))
  {
    hide Consistent, UdpAnswerFails, DatagramAborts;
    ScanHoldsBetween(cfg, st);
    if d.Datagram? && FirstWithId(st.queries, d.id, 0) < |st.queries| {
      UdpAnswerSafe(cfg, st, FirstWithId(st.queries, d.id, 0), d, env);
    }
  }

  lemma ReadTimeoutStep(cfg: Config, st: State, i: nat, env: Env)
    requires Inv(cfg, st) && i < |st.queries| && (st.queries[i].timer.TcpHeadTimer? || st.queries[i].timer.TcpBodyTimer?)
    ensures OnReadTimeout(cfg, st, i, env)
         == if Stuck(cfg, st, i, CodeTimeout, env) then Abort else Progress(MoveOn(cfg, st, i, CodeTimeout, env))
    ensures Good(cfg, st, OnReadTimeout(cfg, st, i, env))
  {
    hide Consistent, MoveOn, MoveOnScanFails, Stuck;
    QueryFacts(cfg, st, i);
    ScanHoldsBetween(cfg, st);
    MoveOnSafe(cfg, st, i, CodeTimeout, env);
    MoveOnGood(cfg, st, i, env);
  }

  lemma FinishGood(cfg: Config, st: State, i: nat, env: Env)
    requires Inv(cfg, st) && i < |st.queries| && st.queries[i].finish
    ensures Good(cfg, st, Progress(QueryDone(cfg, Set(st, i, st.queries[i].(finish := false)), i, env)))
  {
    var q := st.queries[i].(finish := false);
    UpdateCore(cfg, st, i, Call(q));
    assert Set(Set(st, i, q), i, Call(q)) == Set(st, i, Call(q));
    SettledAll(cfg, st, Set(st, i, Call(q)), i);
  }

  // ------------------------------------------------- submit, delete, partial

  /** A new query in no status joins the list. */
  lemma AppendCore(cfg: Config, st: State, q: Query)
    requires Core(cfg, st) && QueryOk(cfg, q) && q.status.Void?
    ensures Core(cfg, st.(queries := st.queries + [q], nextServer := Following(cfg.N(), st.nextServer),
                          nextId := (st.nextId + 1) % 0x1_0000))
  {
    var st1 := st.(queries := st.queries + [q], nextServer := Following(cfg.N(), st.nextServer),
                   nextId := (st.nextId + 1) % 0x1_0000);
    assert st1.queries[..|st.queries|] == st.queries;
    assert CountersAgree(cfg, st1) by {
      assert forall slot | SlotIn(cfg.N(), slot) :: Counter(st1, slot) == Counter(st, slot);
    }
  }

  /** The new query, as it is listed when it starts. */
  lemma SubmitCore(cfg: Config, st: State, options: Options)
    requires Inv(cfg, st)
    ensures var q := NewQuery(cfg, st, options);
            var st0 := st.(nextServer := Following(cfg.N(), st.nextServer), nextId := (st.nextId + 1) % 0x1_0000);
            && Core(cfg, st0.(queries := st.queries + [q]))
            && Core(cfg, st0.(queries := st.queries + [q.(tries := 1)]))
            && CanWant(cfg, st0.(queries := st.queries + [q.(tries := 1)]), |st.queries|, UdpSend)
  {
    hide Consistent;
    var q := NewQuery(cfg, st, options);
    AttemptsLeftBounds(cfg, q);
    assert QueryOk(cfg, q.(tries := 1)) by { assert AttemptsLeft(cfg, q) == AttemptsLeft(cfg, q.(tries := 1)); }
    AppendCore(cfg, st, q);
    AppendCore(cfg, st, q.(tries := 1));
  }

  lemma SubmitInv(cfg: Config, st: State, options: Options, starts: bool)
    requires Inv(cfg, st)
    ensures Inv(cfg, OnSubmit(cfg, st, options, starts))
    ensures var r := OnSubmit(cfg, st, options, starts);
            |r.queries| == |st.queries| + 1 && r.queries[..|st.queries|] == st.queries
  {
    hide Consistent, Want;
    SubmitCore(cfg, st, options);
    var n := |st.queries|;
    var st1 := st.(nextServer := Following(cfg.N(), st.nextServer), nextId := (st.nextId + 1) % 0x1_0000,
                   queries := st.queries + [NewQuery(cfg, st, options).(tries := 1)]);
    WantCore(cfg, st1, n, UdpSend);
    WantShape(cfg, st1, n, UdpSend);
    forall j | 0 <= j <= n
      ensures Settled(OnSubmit(cfg, st, options, starts), j)
    {
      assert j < n ==> Settled(st, j);
    }
  }

  lemma CountDrop(cfg: Config, qs: seq<Query>, i: nat, slot: Slot)
    requires i < |qs| && forall k | 0 <= k < |qs| :: TurnOk(cfg.N(), qs[k].turn)
    ensures Count(cfg, Dropped(qs, i), slot) == Count(cfg, qs, slot) - One(cfg, qs[i], slot)
  {
    var last := qs[|qs| - 1];
    CountUpdate(cfg, qs, i, last, slot);
    assert qs[i := last][|qs| - 1] == last;
  }

  lemma DroppedAt<T>(s: seq<T>, i: nat)
    requires i < |s|
    ensures |Dropped(s, i)| == |s| - 1
    ensures forall j | 0 <= j < |s| - 1 :: Dropped(s, i)[j] == s[if j == i then |s| - 1 else j]
  {
  }

  lemma DeleteCounters(cfg: Config, st: State, i: nat)
    requires Core(cfg, st) && i < |st.queries|
    ensures CountersAgree(cfg, OnDelete(cfg, st, i))
  {
    hide QueryOk, OneBody, HeadsOk;
    var r := OnDelete(cfg, st, i);
    forall slot | SlotIn(cfg.N(), slot) && slot != Nowhere
      ensures Counter(r, slot) == Count(cfg, r.queries, slot)
    {
      CountDrop(cfg, st.queries, i, slot);
      BumpCounter(st, SlotOf(cfg, st.queries[i]), -1, slot);
      assert Counter(r, slot) == Counter(Done(cfg, st, i), slot);
    }
  }

  /** The clean-up may come first: what it changes in the record is dropped with it. */
  lemma DeleteIsDrop(cfg: Config, st: State, i: nat)
    requires Shape(cfg, st) && i < |st.queries|
    ensures |Done(cfg, st, i).queries| == |st.queries|
    ensures OnDelete(cfg, st, i) == Done(cfg, st, i).(queries := Dropped(Done(cfg, st, i).queries, i))
  {
    var d := Done(cfg, st, i);
    DoneShape(cfg, st, i);
    assert Dropped(d.queries, i) == Dropped(st.queries, i);
  }

  /** Removing a query, with the clean-up that fits its status, keeps the invariant. */
  lemma DeleteInv(cfg: Config, st: State, i: nat)
    requires Inv(cfg, st) && i < |st.queries|
    ensures Inv(cfg, OnDelete(cfg, st, i))
  {
    hide CountersAgree, QueryOk, Done, Dropped;
    DeleteCounters(cfg, st, i);
    DoneShape(cfg, st, i);
    DroppedAt(st.queries, i);
    var r := OnDelete(cfg, st, i);
    forall j | 0 <= j < |r.queries|
      ensures Settled(r, j)
    {
      assert Settled(st, if j == i then |st.queries| - 1 else j);
    }
  }

  /** Bytes a body under way still needs, and all headers and bodies. */
  function BodyOf(q: Query): int {
    if q.status.TcpBody? && q.answer.Answer? then q.answer.size - q.answer.len else 0
  }

  function BodyBytes(qs: seq<Query>): int {
    if qs == [] then 0 else BodyBytes(qs[..|qs| - 1]) + BodyOf(qs[|qs| - 1])
  }

  function HeadBytes(servers: seq<Server>): int {
    if servers == [] then 0
    else HeadBytes(servers[..|servers| - 1]) + TCP_HEADER - servers[|servers| - 1].headLen
  }

  lemma {:induction false} BodyBytesUpdate(qs: seq<Query>, i: nat, q: Query)
    requires i < |qs|
    ensures BodyBytes(qs[i := q]) == BodyBytes(qs) - BodyOf(qs[i]) + BodyOf(q)
  {
    var m := |qs| - 1;
    if i < m {
      BodyBytesUpdate(qs[..m], i, q);
      assert qs[i := q][..m] == qs[..m][i := q];
    } else {
      assert qs[i := q][..m] == qs[..m];
    }
  }

  lemma {:induction false} HeadBytesUpdate(servers: seq<Server>, s: nat, server: Server)
    requires s < |servers|
    ensures HeadBytes(servers[s := server]) == HeadBytes(servers) + servers[s].headLen - server.headLen
  {
    var m := |servers| - 1;
    if s < m {
      HeadBytesUpdate(servers[..m], s, server);
      assert servers[s := server][..m] == servers[..m][s := server];
    } else {
      assert servers[s := server][..m] == servers[..m];
    }
  }

  lemma PartialHead(cfg: Config, st: State, s: nat, rd: nat, header: Header, env: Env)
    requires Inv(cfg, st) && s < cfg.N() && st.servers[s].readers > 0
    requires FirstBody(st.queries, s, 0) == |st.queries| && rd < TCP_HEADER - st.servers[s].headLen
    ensures OnHead(cfg, st, s, Bytes(rd), header, env) == Progress(SetHeadLen(st, s, st.servers[s].headLen + rd))
    ensures Inv(cfg, SetHeadLen(st, s, st.servers[s].headLen + rd))
    ensures HeadBytes(SetHeadLen(st, s, st.servers[s].headLen + rd).servers) == HeadBytes(st.servers) - rd
  {
    hide Consistent, OnFullHead, FirstBody;
    var reader := HeadReader(cfg, st, s);
    HeadLenInv(cfg, st, s, st.servers[s].headLen + rd);
    HeadBytesUpdate(st.servers, s, st.servers[s].(headLen := st.servers[s].headLen + rd));
  }

  lemma PartialBody(cfg: Config, st: State, i: nat, rd: nat, env: Env)
    requires Inv(cfg, st) && i < |st.queries| && st.queries[i].status.TcpBody?
    requires rd < st.queries[i].answer.size - st.queries[i].answer.len
    ensures var st1 := Set(st, i, st.queries[i].(answer := Answer(st.queries[i].answer.size, st.queries[i].answer.len + rd)));
            && OnBody(cfg, st, i, Bytes(rd), env) == Progress(st1)
            && Inv(cfg, st1)
            && Measure(cfg, st1.queries[i]) == Measure(cfg, st.queries[i])
            && BodyBytes(st1.queries) == BodyBytes(st.queries) - rd
  {
    hide Consistent, Times;
    QueryFacts(cfg, st, i);
    var q := st.queries[i].(answer := Answer(st.queries[i].answer.size, st.queries[i].answer.len + rd));
    assert AttemptsLeft(cfg, q) == AttemptsLeft(cfg, st.queries[i]);
    UpdateCore(cfg, st, i, q);
    BodyBytesUpdate(st.queries, i, q);
    forall j | 0 <= j < |st.queries|
      ensures Settled(Set(st, i, q), j)
    {
      assert Settled(st, j);
    }
  }

  /** A partial read keeps the invariant and the measures, and brings the end of the
      header or of the body closer. */
  lemma PartialStep(cfg: Config, st: State, e: Event, env: Env)
    requires Inv(cfg, st) && Enabled(cfg, st, e) && PartialRead(st, e)
    ensures var o := Step(cfg, st, e, env);
            && o.Progress? && Inv(cfg, o.state) && Lower(cfg, st, o.state, [])
            && BodyBytes(o.state.queries) + HeadBytes(o.state.servers)
               == BodyBytes(st.queries) + HeadBytes(st.servers) - e.received.rd
  {
    hide Consistent;
    var i := FirstBody(st.queries, e.server, 0);
    if i == |st.queries| {
      PartialHead(cfg, st, e.server, e.received.rd, e.header, env);
    } else {
      QueryFacts(cfg, st, i);
      PartialBody(cfg, st, i, e.received.rd, env);
    }
  }

  /** An event aborts the program exactly in the listed situations, whatever event it is. */
  lemma StepAborts(cfg: Config, st: State, e: Event, env: Env)
    requires Inv(cfg, st) && Enabled(cfg, st, e)
    ensures Step(cfg, st, e, env).Abort? <==> Aborts(cfg, st, e, env)
  {
    hide Consistent, ConnectNextFails, FullHeadAborts, ResultFails;
    if PartialRead(st, e) {
      PartialStep(cfg, st, e, env);
      var i := FirstBody(st.queries, e.server, 0);
      if i < |st.queries| {
        QueryFacts(cfg, st, i);
      }
    } else if !e.Submit? && !e.Delete? {
      StepGood(cfg, st, e, env);
    }
  }

  // -------------------------------------------------------------------- runs

  ghost predicate Initial(cfg: Config, st: State) {
    && cfg.Ok() && |st.servers| == cfg.N() && st.queries == []
    && (forall s | 0 <= s < cfg.N() :: st.servers[s] == Server(false, 0, 0, 0, -1))
    && st.udpWriters == st.udpReaders == st.udp6Writers == st.udp6Readers == 0
    && st.nextServer == 0 && st.nextId == 0
  }

  lemma InitialInv(cfg: Config, st: State)
    requires Initial(cfg, st)
    ensures Inv(cfg, st)
  {
    assert forall slot | SlotIn(cfg.N(), slot) && slot != Nowhere :: Counter(st, slot) == 0;
  }

  datatype Stimulus = Stimulus(event: Event, env: Env)

  ghost predicate CanStep(cfg: Config, st: State, e: Event) {
    cfg.Ok() && Shape(cfg, st) && st.nextServer < cfg.N() && Enabled(cfg, st, e)
  }

  /** The program goes from `a` to `b` without aborting. */
  ghost predicate StepTo(cfg: Config, a: State, x: Stimulus, b: State) {
    CanStep(cfg, a, x.event) &&
    match Step(cfg, a, x.event, x.env)
    case Idle => b == a
    case Progress(c) => b == c
    case Abort => false
  }

  lemma StepInv(cfg: Config, a: State, x: Stimulus, b: State)
    requires Inv(cfg, a) && StepTo(cfg, a, x, b)
    ensures Inv(cfg, b)
  {
    hide Consistent;
    if x.event.Submit? {
      SubmitInv(cfg, a, x.event.options, x.event.starts);
    } else if x.event.Delete? {
      DeleteInv(cfg, a, x.event.index);
    } else if PartialRead(a, x.event) {
      PartialStep(cfg, a, x.event, x.env);
    } else {
      StepGood(cfg, a, x.event, x.env);
    }
  }

  ghost predicate Run(cfg: Config, sts: seq<State>, xs: seq<Stimulus>) {
    && |sts| == |xs| + 1
    && Initial(cfg, sts[0])
    && forall k | 0 <= k < |xs| :: StepAt(cfg, sts, xs, k)
  }

  ghost predicate StepAt(cfg: Config, sts: seq<State>, xs: seq<Stimulus>, k: nat)
    requires k < |xs| && |sts| == |xs| + 1
  {
    StepTo(cfg, sts[k], xs[k], sts[k + 1])
  }

  /** In every state of every run the counters agree with the statuses, timers are pending
      exactly for the reads, every started query waits or is done, none called back twice or
      tried more servers than it may, and with the repairs one body is received on a connection
      at most. */
  lemma {:induction false} RunInv(cfg: Config, sts: seq<State>, xs: seq<Stimulus>, k: nat)
    requires Run(cfg, sts, xs) && k < |sts|
    ensures Inv(cfg, sts[k])
  {
    hide Consistent;
    if k == 0 {
      InitialInv(cfg, sts[0]);
    } else {
      RunInv(cfg, sts, xs, k - 1);
      assert StepAt(cfg, sts, xs, k - 1);
      StepInv(cfg, sts[k - 1], xs[k - 1], sts[k]);
    }
  }

  /** Events of the first `k` that changed a query's status, schedule or callback. */
  ghost function Advancing(cfg: Config, sts: seq<State>, xs: seq<Stimulus>, k: nat): nat
    requires k <= |xs| && |sts| == |xs| + 1
  {
    if k == 0 then 0
    else
      var e := xs[k - 1].event;
      Advancing(cfg, sts, xs, k - 1)
      + if sts[k] != sts[k - 1] && !e.Submit? && !e.Delete? && !PartialRead(sts[k - 1], e) then 1 else 0
  }

  function Submits(xs: seq<Stimulus>): nat {
    if xs == [] then 0 else Submits(xs[..|xs| - 1]) + if xs[|xs| - 1].event.Submit? then 1 else 0
  }

  ghost function MeasureOf(cfg: Config, q: Query): int {
    if TurnOk(cfg.N(), q.turn) then Measure(cfg, q) else 0
  }

  ghost function Total(cfg: Config, qs: seq<Query>): int {
    if qs == [] then 0 else Total(cfg, qs[..|qs| - 1]) + MeasureOf(cfg, qs[|qs| - 1])
  }

  lemma {:induction false} TotalBounds(cfg: Config, qs: seq<Query>)
    requires cfg.Ok() && forall k | 0 <= k < |qs| :: QueryOk(cfg, qs[k])
    ensures 0 <= Total(cfg, qs)
  {
    if qs != [] {
      TotalBounds(cfg, qs[..|qs| - 1]);
      MeasureNonNegative(cfg, qs[|qs| - 1]);
    }
  }

  lemma {:induction false} TotalLower(cfg: Config, a: seq<Query>, b: seq<Query>)
    requires |a| == |b| && forall k | 0 <= k < |a| :: MeasureOf(cfg, b[k]) <= MeasureOf(cfg, a[k])
    ensures Total(cfg, b) <= Total(cfg, a)
    ensures (exists k :: 0 <= k < |a| && MeasureOf(cfg, b[k]) < MeasureOf(cfg, a[k])) ==> Total(cfg, b) < Total(cfg, a)
  {
    if a != [] {
      var m := |a| - 1;
      TotalLower(cfg, a[..m], b[..m]);
      assert forall k | 0 <= k < m :: a[..m][k] == a[k] && b[..m][k] == b[k];
    }
  }

  lemma {:induction false} TotalUpdate(cfg: Config, qs: seq<Query>, i: nat, q: Query)
    requires i < |qs|
    ensures Total(cfg, qs[i := q]) == Total(cfg, qs) - MeasureOf(cfg, qs[i]) + MeasureOf(cfg, q)
  {
    var m := |qs| - 1;
    if i < m {
      TotalUpdate(cfg, qs[..m], i, q);
      assert qs[i := q][..m] == qs[..m][i := q];
    } else {
      assert qs[i := q][..m] == qs[..m];
    }
  }

  lemma LowerTotal(cfg: Config, a: State, b: State, list: seq<nat>)
    requires Lower(cfg, a, b, list)
    ensures Total(cfg, b.queries) <= Total(cfg, a.queries)
    ensures list != [] && list[0] < |a.queries| ==> Total(cfg, b.queries) < Total(cfg, a.queries)
  {
    hide Consistent;
    TotalLower(cfg, a.queries, b.queries);
    if list != [] && list[0] < |a.queries| {
      assert list[0] in list;
    }
  }

  lemma SubmitTotal(cfg: Config, st: State, options: Options, starts: bool)
    requires Inv(cfg, st)
    ensures Total(cfg, OnSubmit(cfg, st, options, starts).queries)
         <= Total(cfg, st.queries) + 1 + 7 * AttemptsPerQuery(cfg)
  {
    SubmitInv(cfg, st, options, starts);
    var r := OnSubmit(cfg, st, options, starts);
    MeasureNonNegative(cfg, r.queries[|st.queries|]);
  }

  lemma DeleteTotal(cfg: Config, st: State, i: nat)
    requires Inv(cfg, st) && i < |st.queries|
    ensures Total(cfg, OnDelete(cfg, st, i).queries) <= Total(cfg, st.queries)
  {
    TotalUpdate(cfg, st.queries, i, st.queries[|st.queries| - 1]);
    MeasureNonNegative(cfg, st.queries[i]);
  }

  lemma StepTotal(cfg: Config, a: State, x: Stimulus, b: State)
    requires Inv(cfg, a) && StepTo(cfg, a, x, b)
    ensures x.event.Submit? ==> Total(cfg, b.queries) <= Total(cfg, a.queries) + 1 + 7 * AttemptsPerQuery(cfg)
    ensures !x.event.Submit? ==> Total(cfg, b.queries) <= Total(cfg, a.queries)
    ensures !x.event.Submit? && !x.event.Delete? && !PartialRead(a, x.event) && a != b ==>
              Total(cfg, b.queries) < Total(cfg, a.queries)
  {
    hide Consistent;
    if x.event.Submit? {
      SubmitTotal(cfg, a, x.event.options, x.event.starts);
    } else if x.event.Delete? {
      DeleteTotal(cfg, a, x.event.index);
    } else if PartialRead(a, x.event) {
      PartialStep(cfg, a, x.event, x.env);
      LowerTotal(cfg, a, b, []);
    } else if a != b {
      StepGood(cfg, a, x.event, x.env);
      var i :| 0 <= i < |a.queries| && Lower(cfg, a, b, [i]);
      LowerTotal(cfg, a, b, [i]);
    }
  }

  /** Progress one submitted query can make. */
  function ProgressPerQuery(cfg: Config): nat {
    1 + 7 * AttemptsPerQuery(cfg)
  }

  lemma AdvancingStep(cfg: Config, sts: seq<State>, xs: seq<Stimulus>, k: nat)
    requires Run(cfg, sts, xs) && 0 < k <= |xs|
    ensures Submits(xs[..k]) == Submits(xs[..k - 1]) + if xs[k - 1].event.Submit? then 1 else 0
    ensures Advancing(cfg, sts, xs, k) + Total(cfg, sts[k].queries)
         <= Advancing(cfg, sts, xs, k - 1) + Total(cfg, sts[k - 1].queries)
            + if xs[k - 1].event.Submit? then ProgressPerQuery(cfg) else 0
  {
    hide Consistent;
    RunInv(cfg, sts, xs, k - 1);
    assert StepAt(cfg, sts, xs, k - 1);
    StepTotal(cfg, sts[k - 1], xs[k - 1], sts[k]);
    assert xs[..k][..k - 1] == xs[..k - 1];
  }

  /** No run outlasts its submits: the number of events that make progress is bounded
      by the number of submits, in terms of servers, retries and search suffixes. */
  lemma {:induction false} RunBound(cfg: Config, sts: seq<State>, xs: seq<Stimulus>, k: nat)
    requires Run(cfg, sts, xs) && k <= |xs|
    ensures 0 <= Total(cfg, sts[k].queries)
    ensures Advancing(cfg, sts, xs, k) + Total(cfg, sts[k].queries) <= Submits(xs[..k]) * ProgressPerQuery(cfg)
  {
    TotalNonNegative(cfg, sts, xs, k);
    if k == 0 {
      assert Submits(xs[..0]) == 0;
    } else {
      RunBound(cfg, sts, xs, k - 1);
      AdvancingStep(cfg, sts, xs, k);
      Distribute(Submits(xs[..k - 1]), ProgressPerQuery(cfg));
    }
  }

  lemma Distribute(m: int, b: int)
    ensures (m + 1) * b == m * b + b
  {
  }

  lemma TotalNonNegative(cfg: Config, sts: seq<State>, xs: seq<Stimulus>, k: nat)
    requires Run(cfg, sts, xs) && k <= |xs|
    ensures 0 <= Total(cfg, sts[k].queries)
  {
    RunInv(cfg, sts, xs, k);
    TotalBounds(cfg, sts[k].queries);
  }

  /** What the documentation promises of every run: one callback at most, and no more than
      (1 + search suffixes) * servers * (retries + 1) server attempts. */
  lemma RunTries(cfg: Config, sts: seq<State>, xs: seq<Stimulus>, k: nat, i: nat)
    requires Run(cfg, sts, xs) && k < |sts| && i < |sts[k].queries|
    ensures var q := sts[k].queries[i];
            && q.calls <= 1
            && q.tries <= (1 + |cfg.suffixes|) * |cfg.families| * ((if cfg.retry < 0 then 0 else cfg.retry) + 1)
            && (q.timer.NoTimer? <==> !(q.status.UdpRecv? || q.status.TcpHead? || q.status.TcpBody?))
            && (q.calls == 1 || q.finish || q.tries == 0 || !q.status.Void?)
  {
    RunInv(cfg, sts, xs, k);
    AttemptsPerQueryProduct(cfg);
    assert Settled(sts[k], i);
  }
}
