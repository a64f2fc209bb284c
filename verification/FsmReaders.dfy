/** Reading headers on a shared connection. `tcp_head_len` is reset only when a query
    starts to wait for a header, so a second reader finds the count of the first one's
    header. With one reader per connection at a time the count is below the header size
    when it is used, unless the header named a query that waits on another connection. */
module FsmReaders {
  import opened Families
  import opened FsmInvariant
  import opened FsmModel
  import opened FsmRuns
  import opened FsmSteps
  import opened Limits
  import opened Rotation
  import opened RuliList

  /** No query starts to wait for a header or a body, and no count of header bytes changes. */
  ghost predicate Quiet(a: State, b: State) {
    && |b.queries| == |a.queries| && |b.servers| == |a.servers|
    && (forall s | 0 <= s < |a.servers| :: b.servers[s].headLen == a.servers[s].headLen)
    && (forall j | 0 <= j < |a.queries| && b.queries[j].status.TcpHead? ::
          a.queries[j].status.TcpHead? && b.queries[j].turn == a.queries[j].turn)
    && (forall j | 0 <= j < |a.queries| && b.queries[j].status.TcpBody? :: b.queries[j] == a.queries[j])
  }

  lemma DoneQuiet(cfg: Config, st: State, i: nat)
    requires Shape(cfg, st) && i < |st.queries|
    ensures Quiet(st, Done(cfg, st, i)) && Done(cfg, st, i).queries[i].status.Void?
  {
    hide Done;
    DoneShape(cfg, st, i);
  }

  lemma WantQuiet(cfg: Config, st: State, i: nat, s: Status)
    requires Shape(cfg, st) && i < |st.queries| && !s.TcpHead? && !s.TcpBody?
    ensures Quiet(st, Want(cfg, st, i, s)) && Want(cfg, st, i, s).queries[i].status == s
  {
    hide Want;
    WantShape(cfg, st, i, s);
  }

  lemma {:induction false} ConnectToWriteQuiet(cfg: Config, st: State, s: nat, j: nat)
    requires Shape(cfg, st) && s < cfg.N()
    ensures Quiet(st, ConnectToWrite(cfg, st, s, j))
    decreases |st.queries| - j
  {
    hide Done, Want;
    if j < |st.queries| {
      if st.queries[j].status.TcpConnect? && st.queries[j].turn.curr == s {
        DoneQuiet(cfg, st, j);
        DoneShape(cfg, st, j);
        WantQuiet(cfg, Done(cfg, st, j), j, TcpSend);
        WantShape(cfg, Done(cfg, st, j), j, TcpSend);
        ConnectToWriteQuiet(cfg, Want(cfg, Done(cfg, st, j), j, TcpSend), s, j + 1);
      } else {
        ConnectToWriteQuiet(cfg, st, s, j + 1);
      }
    }
  }

  lemma {:induction false} WantConnectQuiet(cfg: Config, st: State, i: nat, env: Env, k: nat)
    requires Shape(cfg, st) && i < |st.queries| && st.queries[i].status.Void?
    ensures Quiet(st, WantConnect(cfg, st, i, env, k))
    decreases SwitchesLeft(cfg.N(), st.queries[i].turn)
  {
    hide Done, Want;
    SwitchExact(cfg.N(), st.queries[i].turn);
    var s := st.queries[i].turn.curr;
    if st.servers[s].open {
      WantQuiet(cfg, st, i, TcpSend);
    } else {
      var st0 := SetOpen(st, s, true);
      match env.connect(i, k)
      case Immediate =>
        WantQuiet(cfg, st0, i, TcpSend);
        WantShape(cfg, st0, i, TcpSend);
        ConnectToWriteQuiet(cfg, Want(cfg, st0, i, TcpSend), s, 0);
      case InProgress =>
        WantQuiet(cfg, st0, i, TcpConnect);
      case NoSocket =>
        var (st1, ok) := SwitchElseFinish(cfg, st, i, CodeConnect);
        if ok { WantConnectQuiet(cfg, st1, i, env, k + 1); }
      case Refused =>
        var (st1, ok) := SwitchElseFinish(cfg, st0, i, CodeConnect);
        if ok { WantConnectQuiet(cfg, st1, i, env, k + 1); }
    }
  }

  lemma MoveOnQuiet(cfg: Config, st: State, i: nat, code: Code, env: Env)
    requires Shape(cfg, st) && i < |st.queries|
    ensures Quiet(st, MoveOn(cfg, st, i, code, env)) && !MoveOn(cfg, st, i, code, env).queries[i].status.TcpHead?
  {
    hide Leave, WantConnect, SwitchElseFinish, Quiet;
    LeaveQuiet(cfg, st, i, code);
    var (st1, ok) := SwitchElseFinish(cfg, Leave(cfg, st, i), i, code);
    if ok {
      WantConnectQuiet(cfg, st1, i, env, 0);
      QuietTwice(st, st1, WantConnect(cfg, st1, i, env, 0), i);
    }
  }

  lemma LeaveQuiet(cfg: Config, st: State, i: nat, code: Code)
    requires Shape(cfg, st) && i < |st.queries|
    ensures var r := SwitchElseFinish(cfg, Leave(cfg, st, i), i, code).0; Quiet(st, r) && r.queries[i].status.Void?
  {
    hide Leave;
    LeaveShape(cfg, st, i);
  }

  lemma QuietTwice(a: State, b: State, c: State, i: nat)
    requires Quiet(a, b) && Quiet(b, c) && i < |b.queries| == |c.queries| && b.queries[i].status.Void?
    ensures Quiet(a, c) && !c.queries[i].status.TcpHead?
  {
  }

  lemma {:induction false} MoveAllOnQuiet(cfg: Config, st: State, list: seq<nat>, env: Env)
    requires Shape(cfg, st) && forall k | 0 <= k < |list| :: list[k] < |st.queries|
    ensures Quiet(st, MoveAllOn(cfg, st, list, env))
    ensures forall j | j in list :: !MoveAllOn(cfg, st, list, env).queries[j].status.TcpHead?
    decreases |list|
  {
    if list != [] {
      MoveOnQuiet(cfg, st, list[0], CodeConnect, env);
      MoveAllOnQuiet(cfg, MoveOn(cfg, st, list[0], CodeConnect, env), list[1..], env);
      assert list == [list[0]] + list[1..];
    }
  }

  lemma ConnectNextQuiet(cfg: Config, st: State, s: nat, env: Env)
    requires Shape(cfg, st) && s < cfg.N()
    ensures Quiet(st, ConnectNext(cfg, st, s, env))
    ensures forall j | 0 <= j < |st.queries| && ConnectNext(cfg, st, s, env).queries[j].status.TcpHead? ::
              ConnectNext(cfg, st, s, env).queries[j].turn.curr != s
  {
    MoveAllOnQuiet(cfg, SetOpen(st, s, false), Affected(st.queries, s, |st.queries|), env);
  }

  lemma QueryDoneQuiet(cfg: Config, st: State, i: nat, env: Env)
    requires Shape(cfg, st) && i < |st.queries| && st.queries[i].status.Void?
    ensures Quiet(st, QueryDone(cfg, st, i, env)) && !QueryDone(cfg, st, i, env).queries[i].status.TcpHead?
  {
    hide Want;
    var q0 := st.queries[i];
    var q := if q0.code.CodeOk? && q0.tc then q0.(code := CodeAnswerTrunc) else q0;
    if TriesSuffix(cfg, q) && NextJoin(cfg, q).Joins? && env.startOk {
      WantQuiet(cfg, Set(st, i, Restarted(cfg, q).(tries := q.tries + 1)), i, UdpSend);
    }
  }

  /** Done with query `i`, then its result. */
  lemma ResultQuiet(cfg: Config, st: State, i: nat, q: Query, env: Env)
    requires Shape(cfg, st) && i < |st.queries| && q.status.Void? && q.turn == st.queries[i].turn
    ensures var r := QueryDone(cfg, Set(Done(cfg, st, i), i, q), i, env);
            Quiet(st, r) && !r.queries[i].status.TcpHead?
  {
    hide Done, QueryDone;
    DoneShape(cfg, st, i);
    DoneQuiet(cfg, st, i);
    QueryDoneQuiet(cfg, Set(Done(cfg, st, i), i, q), i, env);
  }

  lemma ResendQuiet(cfg: Config, st: State, i: nat, code: Code)
    requires Shape(cfg, st) && i < |st.queries|
    ensures Quiet(st, Resend(cfg, st, i, code))
  {
    hide Done, Want;
    DoneShape(cfg, st, i);
    DoneQuiet(cfg, st, i);
    var (st1, ok) := SwitchElseFinish(cfg, Done(cfg, st, i), i, code);
    if ok { WantQuiet(cfg, st1, i, UdpSend); }
  }

  lemma {:induction false} CountTwo(cfg: Config, qs: seq<Query>, i: nat, j: nat, slot: Slot)
    requires i < j < |qs| && TurnOk(cfg.N(), qs[i].turn) && TurnOk(cfg.N(), qs[j].turn)
    requires SlotOf(cfg, qs[i]) == slot == SlotOf(cfg, qs[j])
    ensures Count(cfg, qs, slot) >= 2
  {
    var m := |qs| - 1;
    if j < m {
      CountTwo(cfg, qs[..m], i, j, slot);
    } else {
      CountUpdate(cfg, qs[..m], i, qs[i], slot);
    }
  }

  lemma OnlyReader(cfg: Config, st: State, i: nat, j: nat)
    requires Core(cfg, st) && i < |st.queries| && j < |st.queries| && i != j
    requires st.queries[i].status.TcpHead? && st.queries[j].status.TcpHead?
    requires st.servers[st.queries[i].turn.curr].readers <= 1
    ensures st.queries[i].turn.curr != st.queries[j].turn.curr
  {
    var s := st.queries[i].turn.curr;
    assert Counter(st, Readers(s)) == Count(cfg, st.queries, Readers(s));
    if st.queries[j].turn.curr == s {
      CountTwo(cfg, st.queries, if i < j then i else j, if i < j then j else i, Readers(s));
    }
  }

  lemma UdpReadableQuiet(cfg: Config, a: State, family: Family, d: Datagram, env: Env)
    requires Inv(cfg, a)
    ensures var o := OnUdpReadable(cfg, a, family, d, env); o.Progress? ==> Quiet(a, o.state)
  {
    hide Consistent, Done, QueryDone, WantConnect;
    if d.Datagram? && FirstWithId(a.queries, d.id, 0) < |a.queries| {
      var i := FirstWithId(a.queries, d.id, 0);
      DoneShape(cfg, a, i);
      DoneQuiet(cfg, a, i);
      WantConnectQuiet(cfg, Done(cfg, a, i), i, env, 0);
      var q := a.queries[i].(status := Void, timer := NoTimer);
      ResultQuiet(cfg, a, i, q.(code := CheckAnswerFlags(d.flags, q.options.needRa)), env);
      ResultQuiet(cfg, a, i, q.(answer := Answer(d.size, d.size), code := CodeOk, rcode := d.rcode, tc := false), env);
    }
  }

  /** The events that are neither about the list of queries nor about data on a connection. */
  ghost predicate Elsewhere(e: Event) {
    !e.Submit? && !e.Delete? && !e.TcpWritable? && !e.TcpReadable?
  }

  lemma ElsewhereQuiet(cfg: Config, a: State, x: Stimulus, b: State)
    requires Inv(cfg, a) && StepTo(cfg, a, x, b) && Elsewhere(x.event)
    ensures Quiet(a, b)
  {
    hide Consistent, Done, Want, QueryDone, ConnectNext, ConnectNextFails, ConnectToWrite, MoveOnFails, ScanHolds,
         OnUdpWritable, OnUdpReadable, Resend, MoveOn;
    match x.event
    case UdpWritable(sent) => UdpWritableQuiet(cfg, a, sent);
    case UdpReadable(family, d) => UdpReadableQuiet(cfg, a, family, d, x.env);
    case UdpTimeout(i) => ResendQuiet(cfg, a, i, CodeTimeout);
    case HeadTimeout(i) => MoveOnQuiet(cfg, a, i, CodeTimeout, x.env);
    case BodyTimeout(i) => MoveOnQuiet(cfg, a, i, CodeTimeout, x.env);
    case ConnectResult(s, connected) =>
      ConnectToWriteQuiet(cfg, a, s, 0);
      ConnectNextQuiet(cfg, a, s, x.env);
    case FinishNow(i) =>
      FinishVoid(cfg, a, i);
      QueryDoneQuiet(cfg, Set(a, i, a.queries[i].(finish := false)), i, x.env);
  }

  /** A new query that starts waits to send over UDP, and nothing else changes. */
  lemma SubmitShape(cfg: Config, a: State, options: Options)
    requires Shape(cfg, a) && a.nextServer < cfg.N()
    ensures var b := OnSubmit(cfg, a, options, true);
            && |b.queries| == |a.queries| + 1 && b.queries[..|a.queries|] == a.queries
            && b.queries[|a.queries|].status.UdpSend? && |b.servers| == |a.servers|
            && forall s | 0 <= s < cfg.N() :: b.servers[s].headLen == a.servers[s].headLen
  {
    hide Want;
    var q := NewQuery(cfg, a, options).(tries := 1);
    var st1 := a.(queries := a.queries + [q], nextServer := Following(cfg.N(), a.nextServer),
                  nextId := (a.nextId + 1) % 0x1_0000);
    WantShape(cfg, st1, |a.queries|, UdpSend);
  }

  lemma FinishVoid(cfg: Config, st: State, i: nat)
    requires Core(cfg, st) && i < |st.queries| && st.queries[i].finish
    ensures st.queries[i].status.Void?
  {
    hide Consistent;
    QueryFacts(cfg, st, i);
  }

  lemma UdpWritableQuiet(cfg: Config, a: State, sent: SendResult)
    requires Inv(cfg, a)
    ensures var o := OnUdpWritable(cfg, a, sent); o.Progress? ==> Quiet(a, o.state)
  {
    hide Consistent, Done, Want;
    var i := FirstIn(a.queries, UdpSend, 0);
    if i < |a.queries| {
      DoneShape(cfg, a, i);
      DoneQuiet(cfg, a, i);
      WantQuiet(cfg, Done(cfg, a, i), i, UdpRecv);
      ResendQuiet(cfg, a, i, CodeSend);
    }
  }

  // ------------------------------------------------ the count over a run

  /** A query begins to wait for a header on connection `s`. */
  ghost predicate Begins(a: State, e: Event, s: nat) {
    && e.TcpWritable? && e.sent.Sent?
    && var i := FirstIn(a.queries, TcpSend, 0);
       i < |a.queries| && a.queries[i].turn.curr == s
  }

  /** Bytes of a header arrive on connection `s`. */
  ghost predicate ReadsHead(a: State, e: Event, s: nat) {
    e.TcpReadable? && e.server == s && e.received.Bytes? && FirstBody(a.queries, s, 0) == |a.queries|
  }

  /** They are the last ones of the header. */
  ghost predicate Completes(a: State, e: Event, s: nat) {
    ReadsHead(a, e, s) && s < |a.servers| && a.servers[s].headLen + e.received.rd == TCP_HEADER
  }

  ghost function NewCount(a: State, e: Event, s: nat): int
    requires s < |a.servers|
  {
    if Begins(a, e, s) then 0
    else if ReadsHead(a, e, s) then a.servers[s].headLen + e.received.rd
    else a.servers[s].headLen
  }

  lemma TcpWritableCount(cfg: Config, a: State, t: nat, sent: SendResult, env: Env, s: nat)
    requires Inv(cfg, a) && t < cfg.N() && s < cfg.N()
    ensures var o := OnTcpWritable(cfg, a, t, sent, env);
            && (o.Progress? ==>
                  |o.state.servers| == cfg.N() && o.state.servers[s].headLen == NewCount(a, TcpWritable(t, sent), s))
            && (o.Idle? ==> sent.SendWouldBlock?)
  {
    hide Consistent, Done, Want, ConnectNext, ConnectNextFails;
    ConnectNextQuiet(cfg, a, t, env);
    var i := FirstIn(a.queries, TcpSend, 0);
    if i < |a.queries| {
      DoneShape(cfg, a, i);
      WantShape(cfg, Done(cfg, a, i), i, TcpHead);
    }
  }

  /** The answer whose header is complete: an error, or the wait for its body. */
  lemma HeadAnsweredCount(cfg: Config, st: State, i: nat, header: Header, env: Env, s: nat)
    requires Shape(cfg, st) && i < |st.queries| && s < cfg.N()
    ensures var r := HeadAnswered(cfg, st, i, header, env);
            |r.servers| == cfg.N() && r.servers[s].headLen == st.servers[s].headLen
  {
    hide Done, Want, QueryDone;
    DoneShape(cfg, st, i);
    DoneQuiet(cfg, st, i);
    var code := CheckAnswerFlags(header.flags, st.queries[i].options.needRa);
    if !code.CodeOk? {
      ResultQuiet(cfg, st, i, st.queries[i].(status := Void, timer := NoTimer, code := code), env);
    } else {
      var q := Done(cfg, st, i).queries[i].(answer := Answer(header.msgLen, MSG_HEADER), rcode := header.rcode,
                                            tc := header.flags & MASK_TC != 0);
      WantShape(cfg, Set(Done(cfg, st, i), i, q), i, TcpBody);
    }
  }

  lemma FullHeadCount(cfg: Config, st: State, t: nat, header: Header, env: Env, s: nat)
    requires Shape(cfg, st) && t < cfg.N() && s < cfg.N()
    ensures var o := OnFullHead(cfg, st, t, header, env);
            !o.Idle? && (o.Progress? ==> |o.state.servers| == cfg.N() && o.state.servers[s].headLen == st.servers[s].headLen)
  {
    hide HeadAnswered, ConnectNext, ConnectNextFails;
    ConnectNextQuiet(cfg, st, t, env);
    var i := FirstWithId(st.queries, header.id, 0);
    if i < |st.queries| {
      HeadAnsweredCount(cfg, st, i, header, env, s);
    }
  }

  lemma TcpReadableCount(cfg: Config, a: State, e: Event, env: Env, s: nat)
    requires Inv(cfg, a) && Enabled(cfg, a, e) && e.TcpReadable? && s < cfg.N()
    ensures var o := OnTcpReadable(cfg, a, e.server, e.received, e.header, env);
            && (o.Progress? ==> |o.state.servers| == cfg.N() && o.state.servers[s].headLen == NewCount(a, e, s))
            && (o.Idle? ==> e.received.RecvWouldBlock?)
  {
    hide Consistent, Done, Want, QueryDone, ConnectNext, ConnectNextFails, OnFullHead, ResultFails;
    var i := FirstBody(a.queries, e.server, 0);
    ConnectNextQuiet(cfg, a, e.server, env);
    if i < |a.queries| {
      QueryFacts(cfg, a, i);
      if e.received.Bytes? && e.received.rd == a.queries[i].answer.size - a.queries[i].answer.len {
        BodyComplete(cfg, a, i, e.received.rd, env);
        var size := a.queries[i].answer.size;
        var q := a.queries[i].(status := Void, timer := NoTimer, code := CodeOk, answer := Answer(size, size));
        ResultQuiet(cfg, a, i, q, env);
      }
    } else if e.received.Bytes? {
      FullHeadCount(cfg, SetHeadLen(a, e.server, a.servers[e.server].headLen + e.received.rd), e.server, e.header, env, s);
    }
  }

  /** What an event does to the counts of header bytes. */
  lemma StepCount(cfg: Config, a: State, x: Stimulus, b: State, s: nat)
    requires Inv(cfg, a) && StepTo(cfg, a, x, b) && s < cfg.N()
    ensures |b.servers| == cfg.N() && b.servers[s].headLen == NewCount(a, x.event, s)
  {
    hide Consistent, Done, Want, QueryDone, Dropped, OnTcpWritable, OnTcpReadable;
    if Elsewhere(x.event) {
      ElsewhereQuiet(cfg, a, x, b);
    } else {
      match x.event
      case Submit(options, starts) =>
        if starts {
          SubmitShape(cfg, a, options);
        }
      case Delete(i) => DoneShape(cfg, a, i);
      case TcpWritable(t, sent) => TcpWritableCount(cfg, a, t, sent, x.env, s);
      case TcpReadable(t, received, header) => TcpReadableCount(cfg, a, x.event, x.env, s);
    }
  }

  /** A header read that does not abort gets no more than is missing. */
  lemma ReadFits(cfg: Config, a: State, x: Stimulus, b: State, s: nat)
    requires Inv(cfg, a) && StepTo(cfg, a, x, b) && s < cfg.N() && ReadsHead(a, x.event, s)
    ensures a.servers[s].headLen < a.servers[s].headLen + x.event.received.rd <= TCP_HEADER
  {
    hide Consistent, OnFullHead;
  }

  /** A header was completed on connection `s`, and no query has begun to wait for one there
      since. */
  ghost predicate CompletedSince(sts: seq<State>, xs: seq<Stimulus>, s: nat, k: nat)
    requires k <= |xs| && |sts| == |xs| + 1
  {
    exists m :: 0 <= m < k && Completes(sts[m], xs[m].event, s) && NoneBegins(sts, xs, s, m + 1, k)
  }

  ghost predicate NoneBegins(sts: seq<State>, xs: seq<Stimulus>, s: nat, m: nat, k: nat)
    requires k <= |xs| && |sts| == |xs| + 1
  {
    forall l | m <= l < k :: !Begins(sts[l], xs[l].event, s)
  }

  lemma CompletedStep(sts: seq<State>, xs: seq<Stimulus>, s: nat, k: nat)
    requires 0 < k <= |xs| && |sts| == |xs| + 1
    ensures CompletedSince(sts, xs, s, k) <==>
            || Completes(sts[k - 1], xs[k - 1].event, s)
            || (CompletedSince(sts, xs, s, k - 1) && !Begins(sts[k - 1], xs[k - 1].event, s))
  {
    hide Begins, Completes;
    if Completes(sts[k - 1], xs[k - 1].event, s) {
      assert NoneBegins(sts, xs, s, k, k);
    }
    if CompletedSince(sts, xs, s, k - 1) && !Begins(sts[k - 1], xs[k - 1].event, s) {
      var m :| 0 <= m < k - 1 && Completes(sts[m], xs[m].event, s) && NoneBegins(sts, xs, s, m + 1, k - 1);
      assert NoneBegins(sts, xs, s, m + 1, k);
    }
    if CompletedSince(sts, xs, s, k) {
      var m :| 0 <= m < k && Completes(sts[m], xs[m].event, s) && NoneBegins(sts, xs, s, m + 1, k);
      assert m < k - 1 ==> NoneBegins(sts, xs, s, m + 1, k - 1);
    }
  }

  /** The count of a connection says whether a header was completed on it since a query last
      began to wait for one: it is never reset when the answer is over. */
  lemma {:induction false} FullExactly(cfg: Config, sts: seq<State>, xs: seq<Stimulus>, s: nat, k: nat)
    requires Run(cfg, sts, xs) && k < |sts| && s < cfg.N()
    ensures |sts[k].servers| == cfg.N() && -1 <= sts[k].servers[s].headLen <= TCP_HEADER
    ensures sts[k].servers[s].headLen == TCP_HEADER <==> CompletedSince(sts, xs, s, k)
  {
    hide Inv, StepTo, Begins;
    if k > 0 {
      FullExactly(cfg, sts, xs, s, k - 1);
      RunInv(cfg, sts, xs, k - 1);
      assert StepAt(cfg, sts, xs, k - 1);
      StepCount(cfg, sts[k - 1], xs[k - 1], sts[k], s);
      CompletedStep(sts, xs, s, k);
      if ReadsHead(sts[k - 1], xs[k - 1].event, s) {
        ReadFits(cfg, sts[k - 1], xs[k - 1], sts[k], s);
      }
      NotBoth(sts[k - 1], xs[k - 1].event, s);
    }
  }

  lemma NotBoth(a: State, e: Event, s: nat)
    ensures !(Begins(a, e, s) && ReadsHead(a, e, s))
  {
  }

  // ------------------------------------------------------- one reader

  /** No query begins to wait for a header. */
  ghost predicate NoNewHeads(a: State, b: State) {
    && |b.queries| == |a.queries|
    && forall j | 0 <= j < |a.queries| && b.queries[j].status.TcpHead? ::
         a.queries[j].status.TcpHead? && b.queries[j].turn == a.queries[j].turn
  }

  /** The header of an answer names a query that waits for one on another connection, in a
      program that takes it all the same. */
  ghost predicate StrayHeader(cfg: Config, st: State, s: nat, header: Header) {
    && !cfg.repaired && header.msgLen >= MSG_LOW
    && var i := FirstWithId(st.queries, header.id, 0);
       i < |st.queries| && st.queries[i].status.TcpHead? && st.queries[i].turn.curr != s
  }

  /** Such a header is complete, on connection `s`. */
  ghost predicate Stray(cfg: Config, a: State, e: Event, s: nat) {
    Completes(a, e, s) && StrayHeader(cfg, a, s, e.header)
  }

  lemma HeadAnsweredHeads(cfg: Config, st: State, i: nat, header: Header, env: Env)
    requires Shape(cfg, st) && i < |st.queries|
    ensures var r := HeadAnswered(cfg, st, i, header, env); NoNewHeads(st, r) && !r.queries[i].status.TcpHead?
  {
    hide Done, Want, QueryDone;
    DoneShape(cfg, st, i);
    var q := st.queries[i].(status := Void, timer := NoTimer);
    var code := CheckAnswerFlags(header.flags, q.options.needRa);
    if !code.CodeOk? {
      ResultQuiet(cfg, st, i, q.(code := code), env);
    } else {
      WantShape(cfg, Set(Done(cfg, st, i), i, q.(answer := Answer(header.msgLen, MSG_HEADER), rcode := header.rcode,
                                                  tc := header.flags & MASK_TC != 0)), i, TcpBody);
    }
  }

  /** A whole header takes one reader off its own connection, unless it is a stray one. */
  lemma FullHeadHeads(cfg: Config, st: State, s: nat, header: Header, env: Env)
    requires Inv(cfg, st) && s < cfg.N()
    ensures var o := OnFullHead(cfg, st, s, header, env);
            o.Progress? ==>
              && NoNewHeads(st, o.state)
              && (st.servers[s].readers <= 1 && !StrayHeader(cfg, st, s, header) ==>
                    forall j | 0 <= j < |st.queries| && o.state.queries[j].status.TcpHead? ::
                      o.state.queries[j].turn.curr != s)
  {
    hide Consistent, HeadAnswered, ConnectNext, ConnectNextFails, HeadFails;
    ConnectNextQuiet(cfg, st, s, env);
    var o := OnFullHead(cfg, st, s, header, env);
    var i := FirstWithId(st.queries, header.id, 0);
    if o.Progress? && !Unusable(cfg, st, s, header) {
      HeadAnsweredHeads(cfg, st, i, header, env);
      if st.servers[s].readers <= 1 && st.queries[i].turn.curr == s {
        forall j | 0 <= j < |st.queries| && o.state.queries[j].status.TcpHead?
          ensures o.state.queries[j].turn.curr != s
        {
          OnlyReader(cfg, st, i, j);
        }
      }
    }
  }

  lemma TcpReadableHeads(cfg: Config, a: State, e: Event, env: Env)
    requires Inv(cfg, a) && Enabled(cfg, a, e) && e.TcpReadable?
    ensures var o := OnTcpReadable(cfg, a, e.server, e.received, e.header, env);
            o.Progress? ==>
              && NoNewHeads(a, o.state)
              && (Completes(a, e, e.server) && a.servers[e.server].readers <= 1 && !Stray(cfg, a, e, e.server) ==>
                    forall j | 0 <= j < |a.queries| && o.state.queries[j].status.TcpHead? ::
                      o.state.queries[j].turn.curr != e.server)
  {
    hide Consistent, Done, Want, QueryDone, ConnectNext, ConnectNextFails, OnFullHead, ResultFails;
    var s := e.server;
    var i := FirstBody(a.queries, s, 0);
    ConnectNextQuiet(cfg, a, s, env);
    if i < |a.queries| {
      QueryFacts(cfg, a, i);
      if e.received.Bytes? && e.received.rd == a.queries[i].answer.size - a.queries[i].answer.len {
        BodyComplete(cfg, a, i, e.received.rd, env);
        var size := a.queries[i].answer.size;
        var q := a.queries[i].(status := Void, timer := NoTimer, code := CodeOk, answer := Answer(size, size));
        ResultQuiet(cfg, a, i, q, env);
      }
    } else if Completes(a, e, s) && 0 <= a.servers[s].headLen {
      HeadLenInv(cfg, a, s, TCP_HEADER);
      FullHeadHeads(cfg, SetHeadLen(a, s, TCP_HEADER), s, e.header, env);
    }
  }

  /** The one who waits for a header on connection `s` has room for it. */
  ghost predicate Fresh(st: State, s: nat)
    requires s < |st.servers|
  {
    forall i | 0 <= i < |st.queries| && st.queries[i].status.TcpHead? && st.queries[i].turn.curr == s ::
      st.servers[s].headLen < TCP_HEADER
  }

  lemma TcpWritableHeads(cfg: Config, a: State, t: nat, sent: SendResult, env: Env, s: nat)
    requires Inv(cfg, a) && t < cfg.N() && s < cfg.N() && !Begins(a, TcpWritable(t, sent), s)
    ensures var o := OnTcpWritable(cfg, a, t, sent, env);
            o.Progress? ==>
              && |o.state.queries| == |a.queries|
              && forall j | 0 <= j < |a.queries| && o.state.queries[j].status.TcpHead? && o.state.queries[j].turn.curr == s ::
                   a.queries[j].status.TcpHead? && a.queries[j].turn.curr == s
  {
    hide Consistent, Done, Want, ConnectNext, ConnectNextFails;
    ConnectNextQuiet(cfg, a, t, env);
    var i := FirstIn(a.queries, TcpSend, 0);
    if i < |a.queries| {
      DoneShape(cfg, a, i);
      WantShape(cfg, Done(cfg, a, i), i, TcpHead);
    }
  }

  /** Where one query at most reads, only a stray header leaves one behind a full count. */
  lemma StepFresh(cfg: Config, a: State, x: Stimulus, b: State, s: nat)
    requires Inv(cfg, a) && StepTo(cfg, a, x, b) && s < cfg.N() == |b.servers|
    requires Fresh(a, s) && a.servers[s].readers <= 1 && !Stray(cfg, a, x.event, s)
    ensures Fresh(b, s)
  {
    hide Consistent, Done, Want, QueryDone, Dropped, OnTcpWritable, OnTcpReadable, Begins, Completes, ReadsHead, Stray;
    StepCount(cfg, a, x, b, s);
    CountCases(a, x.event, s);
    if Elsewhere(x.event) {
      ElsewhereQuiet(cfg, a, x, b);
    } else {
      match x.event
      case Submit(options, starts) =>
        if starts {
          SubmitShape(cfg, a, options);
        }
      case Delete(i) =>
        DoneShape(cfg, a, i);
        DroppedAt(a.queries, i);
      case TcpWritable(t, sent) =>
        if !Begins(a, x.event, s) {
          TcpWritableHeads(cfg, a, t, sent, x.env, s);
        }
      case TcpReadable(t, received, header) =>
        TcpReadableHeads(cfg, a, x.event, x.env);
        if ReadsHead(a, x.event, s) {
          ReadFits(cfg, a, x, b, s);
        }
    }
  }

  lemma CountCases(a: State, e: Event, s: nat)
    requires s < |a.servers|
    ensures Begins(a, e, s) ==> e.TcpWritable? && NewCount(a, e, s) == 0
    ensures ReadsHead(a, e, s) ==>
              && e.TcpReadable? && e.server == s && e.received.Bytes?
              && NewCount(a, e, s) == a.servers[s].headLen + e.received.rd
              && (Completes(a, e, s) <==> NewCount(a, e, s) == TCP_HEADER)
    ensures !Begins(a, e, s) && !ReadsHead(a, e, s) ==> NewCount(a, e, s) == a.servers[s].headLen
  {
  }

  /** A stray header was completed on connection `s`, and no query has begun to wait for one
      there since. */
  ghost predicate StraySince(cfg: Config, sts: seq<State>, xs: seq<Stimulus>, s: nat, k: nat)
    requires k <= |xs| && |sts| == |xs| + 1
  {
    exists m :: 0 <= m < k && Stray(cfg, sts[m], xs[m].event, s) && NoneBegins(sts, xs, s, m + 1, k)
  }

  lemma {:induction false} OneReaderFresh(cfg: Config, sts: seq<State>, xs: seq<Stimulus>, s: nat, k: nat)
    requires Run(cfg, sts, xs) && k < |sts| && s < cfg.N()
    requires forall j | 0 <= j < k :: s < |sts[j].servers| && sts[j].servers[s].readers <= 1
    ensures |sts[k].servers| == cfg.N()
    ensures Fresh(sts[k], s) || StraySince(cfg, sts, xs, s, k)
  {
    hide Inv, StepTo, Begins, Stray, Fresh;
    FullExactly(cfg, sts, xs, s, k);
    if k == 0 {
      NoQueryFresh(cfg, sts[0], s);
    } else {
      OneReaderFresh(cfg, sts, xs, s, k - 1);
      RunInv(cfg, sts, xs, k - 1);
      assert StepAt(cfg, sts, xs, k - 1);
      var a, e := sts[k - 1], xs[k - 1].event;
      if Stray(cfg, a, e, s) {
        assert NoneBegins(sts, xs, s, k, k);
      } else if Fresh(a, s) {
        StepFresh(cfg, a, xs[k - 1], sts[k], s);
      } else if Begins(a, e, s) {
        BeginsFresh(cfg, a, xs[k - 1], sts[k], s);
      } else {
        var m :| 0 <= m < k - 1 && Stray(cfg, sts[m], xs[m].event, s) && NoneBegins(sts, xs, s, m + 1, k - 1);
        assert NoneBegins(sts, xs, s, m + 1, k);
      }
    }
  }

  lemma NoQueryFresh(cfg: Config, st: State, s: nat)
    requires Initial(cfg, st) && s < |st.servers|
    ensures Fresh(st, s)
  {
  }

  lemma BeginsFresh(cfg: Config, a: State, x: Stimulus, b: State, s: nat)
    requires Inv(cfg, a) && StepTo(cfg, a, x, b) && s < cfg.N() == |b.servers| && Begins(a, x.event, s)
    ensures Fresh(b, s)
  {
    hide Inv, StepTo;
    StepCount(cfg, a, x, b, s);
  }

  /** On a connection that never has two readers, a query waits behind the count of an earlier
      header exactly when a stray header was completed there and no query has begun to wait
      since; the repaired program takes none. */
  lemma OneReaderRuns(cfg: Config, sts: seq<State>, xs: seq<Stimulus>, k: nat, i: nat)
    requires Run(cfg, sts, xs) && k < |sts| && i < |sts[k].queries| && sts[k].queries[i].status.TcpHead?
    requires forall j | 0 <= j < k ::
               |sts[j].servers| == cfg.N() && (sts[k].queries[i].turn.curr < cfg.N() ==>
                 sts[j].servers[sts[k].queries[i].turn.curr].readers <= 1)
    ensures var s := sts[k].queries[i].turn.curr;
            && s < |sts[k].servers|
            && (sts[k].servers[s].headLen == TCP_HEADER <==> StraySince(cfg, sts, xs, s, k))
            && (cfg.repaired ==> sts[k].servers[s].headLen < TCP_HEADER)
  {
    hide Begins;
    RunInv(cfg, sts, xs, k);
    var s := sts[k].queries[i].turn.curr;
    OneReaderFresh(cfg, sts, xs, s, k);
    FullExactly(cfg, sts, xs, s, k);
    if StraySince(cfg, sts, xs, s, k) {
      var m :| 0 <= m < k && Stray(cfg, sts[m], xs[m].event, s) && NoneBegins(sts, xs, s, m + 1, k);
      assert CompletedSince(sts, xs, s, k);
    }
  }

  /** A query waits for a header on a connection where no body is being received, and the
      last header completed there came after the last query began to wait: the program then
      aborts at the next read, whatever it brings, and every connection with a waiting query
      is read from. */
  lemma WaiterAborts(cfg: Config, sts: seq<State>, xs: seq<Stimulus>, k: nat, j: nat,
                     received: RecvResult, header: Header, env: Env)
    requires Run(cfg, sts, xs) && k < |sts| && j < |sts[k].queries| && sts[k].queries[j].status.TcpHead?
    requires FirstBody(sts[k].queries, sts[k].queries[j].turn.curr, 0) == |sts[k].queries|
    requires (received.Bytes? ==> 0 < received.rd) && header.msgLen < 0x1_0000
    requires CompletedSince(sts, xs, sts[k].queries[j].turn.curr, k)
    ensures var e := TcpReadable(sts[k].queries[j].turn.curr, received, header);
            CanStep(cfg, sts[k], e) && Step(cfg, sts[k], e, env).Abort?
  {
    hide Consistent, CompletedSince;
    var s := sts[k].queries[j].turn.curr;
    RunInv(cfg, sts, xs, k);
    FullExactly(cfg, sts, xs, s, k);
    ReaderCounted(cfg, sts[k], j);
  }

  /** Otherwise it does not, where the read finds nothing. */
  lemma WaiterWaits(cfg: Config, sts: seq<State>, xs: seq<Stimulus>, k: nat, j: nat, header: Header, env: Env)
    requires Run(cfg, sts, xs) && k < |sts| && j < |sts[k].queries| && sts[k].queries[j].status.TcpHead?
    requires FirstBody(sts[k].queries, sts[k].queries[j].turn.curr, 0) == |sts[k].queries| && header.msgLen < 0x1_0000
    requires !CompletedSince(sts, xs, sts[k].queries[j].turn.curr, k)
    ensures var e := TcpReadable(sts[k].queries[j].turn.curr, RecvWouldBlock, header);
            CanStep(cfg, sts[k], e) && Step(cfg, sts[k], e, env).Idle?
  {
    hide Consistent, CompletedSince;
    var s := sts[k].queries[j].turn.curr;
    RunInv(cfg, sts, xs, k);
    FullExactly(cfg, sts, xs, s, k);
    ReaderCounted(cfg, sts[k], j);
    HeadCount(cfg, sts[k], j);
  }

  /** The connection of a query that waits for a header is open and read from. */
  lemma ReaderCounted(cfg: Config, st: State, j: nat)
    requires Inv(cfg, st) && j < |st.queries| && st.queries[j].status.TcpHead?
    ensures var s := st.queries[j].turn.curr; s < cfg.N() == |st.servers| && st.servers[s].open && st.servers[s].readers > 0
  {
    var s := st.queries[j].turn.curr;
    assert Settled(st, j);
    assert Counter(st, Readers(s)) == Count(cfg, st.queries, Readers(s));
    CountUpdate(cfg, st.queries, j, st.queries[j], Readers(s));
  }

  /** The connection of a query waiting for a header has a sane count. */
  lemma HeadCount(cfg: Config, st: State, i: nat)
    requires Inv(cfg, st) && i < |st.queries| && st.queries[i].status.TcpHead?
    ensures 0 <= st.servers[st.queries[i].turn.curr].headLen <= TCP_HEADER
  {
  }

  /** The read `e` ends the wait of query `i` on its connection: its header is refused, or its
      body, whose header was the last thing counted there, is complete. */
  ghost predicate EndsAnswer(st: State, i: nat, e: Event)
    requires i < |st.queries|
  {
    var q := st.queries[i];
    && e.TcpReadable? && e.server == q.turn.curr < |st.servers| && e.received.Bytes?
    && if q.status.TcpBody? then
         && q.answer.Answer? && e.received.rd == q.answer.size - q.answer.len
         && i == FirstBody(st.queries, e.server, 0) && st.servers[e.server].headLen == TCP_HEADER
       else
         && q.status.TcpHead? && Completes(st, e, e.server) && e.received.rd > 0
         && e.header.msgLen >= MSG_LOW && FirstWithId(st.queries, e.header.id, 0) == i
         && !CheckAnswerFlags(e.header.flags, q.options.needRa).CodeOk?
  }

  /** What is left when the answer is over: the other queries, and a full count. */
  lemma AnswerEnds(cfg: Config, st: State, i: nat, e: Event, env: Env)
    requires Inv(cfg, st) && i < |st.queries| && EndsAnswer(st, i, e)
    ensures var o, s := OnTcpReadable(cfg, st, e.server, e.received, e.header, env), e.server;
            o.Progress? ==>
              && |o.state.queries| == |st.queries| && |o.state.servers| == |st.servers|
              && o.state.servers[s].headLen == TCP_HEADER
              && (forall k | 0 <= k < |st.queries| && k != i :: o.state.queries[k] == st.queries[k])
              && !TcpStatus(o.state.queries[i].status)
  {
    hide Consistent, Done, QueryDone, ResultFails, FirstBody, FirstWithId;
    QueryFacts(cfg, st, i);
    var s, q := e.server, st.queries[i];
    if q.status.TcpBody? {
      var size := q.answer.size;
      BodyComplete(cfg, st, i, e.received.rd, env);
      ResultFrame(cfg, st, i, q.(status := Void, timer := NoTimer, code := CodeOk, answer := Answer(size, size)), env);
    } else {
      var st1 := SetHeadLen(st, s, TCP_HEADER);
      DoneShape(cfg, st1, i);
      var code := CheckAnswerFlags(e.header.flags, q.options.needRa);
      assert FirstBody(st1.queries, s, 0) == FirstBody(st.queries, s, 0);
      ResultFrame(cfg, st1, i, q.(status := Void, timer := NoTimer, code := code), env);
    }
  }

  /** A result changes its own query only, and leaves it in no TCP status. */
  lemma ResultFrame(cfg: Config, st: State, i: nat, q: Query, env: Env)
    requires Shape(cfg, st) && i < |st.queries| && q.status.Void? && q.turn == st.queries[i].turn
    ensures var r := QueryDone(cfg, Set(Done(cfg, st, i), i, q), i, env);
            && |r.queries| == |st.queries| && |r.servers| == |st.servers|
            && (forall s | 0 <= s < cfg.N() :: r.servers[s].headLen == st.servers[s].headLen)
            && (forall k | 0 <= k < |st.queries| && k != i :: r.queries[k] == st.queries[k])
            && !TcpStatus(r.queries[i].status)
  {
    hide Done, Want;
    DoneShape(cfg, st, i);
    var st1 := Set(Done(cfg, st, i), i, q);
    var q1 := if q.code.CodeOk? && q.tc then q.(code := CodeAnswerTrunc) else q;
    WantShape(cfg, Set(st1, i, Restarted(cfg, q1).(tries := q.tries + 1)), i, UdpSend);
  }

  /** Two queries wait on one connection, and the answer of one of them is over, refused or
      received whole: the other one still waits, and the next read on the connection, whatever
      it brings, aborts the program. */
  lemma SecondReaderAborts(cfg: Config, st: State, i: nat, j: nat, e: Event, env: Env,
                           received: RecvResult, header: Header, later: Env)
    requires Inv(cfg, st) && i < |st.queries| && j < |st.queries| && i != j && CanStep(cfg, st, e)
    requires st.queries[j].status.TcpHead? && st.queries[j].turn.curr == st.queries[i].turn.curr
    requires EndsAnswer(st, i, e) && Step(cfg, st, e, env).Progress? && (cfg.repaired || NoBodyBut(st, i))
    requires (received.Bytes? ==> 0 < received.rd) && header.msgLen < 0x1_0000
    ensures var b, next := Step(cfg, st, e, env).state, TcpReadable(e.server, received, header);
            && j < |b.queries| && b.queries[j] == st.queries[j]
            && CanStep(cfg, b, next) && Step(cfg, b, next, later).Abort?
  {
    hide Consistent, Done, OnTcpReadable, FirstWithId;
    var b := Step(cfg, st, e, env).state;
    StepInv(cfg, st, Stimulus(e, env), b);
    AnswerEnds(cfg, st, i, e, env);
    ReaderCounted(cfg, b, j);
    NoOtherBody(cfg, st, i, e.server);
    assert FirstBody(b.queries, e.server, 0) == |b.queries|;
    WaitedRead(cfg, b, e.server, received, header, later);
  }

  lemma WaitedRead(cfg: Config, st: State, s: nat, received: RecvResult, header: Header, env: Env)
    requires Shape(cfg, st) && s < cfg.N() && FirstBody(st.queries, s, 0) == |st.queries|
    ensures st.servers[s].headLen == TCP_HEADER ==> OnTcpReadable(cfg, st, s, received, header, env).Abort?
  {
  }

  /** Where query `i` is reading, no other one receives a body on the connection. */
  lemma NoOtherBody(cfg: Config, st: State, i: nat, s: nat)
    requires Core(cfg, st) && i < |st.queries| && st.queries[i].turn.curr == s
    requires st.queries[i].status.TcpBody? || FirstBody(st.queries, s, 0) == |st.queries|
    requires cfg.repaired || NoBodyBut(st, i)
    ensures forall k | 0 <= k < |st.queries| && k != i && st.queries[k].turn.curr == s :: !st.queries[k].status.TcpBody?
  {
  }
}
