/** The body of an answer that is left unfinished. The program as it stands keeps its buffer:
    what becomes of such a query, and when leaving the body aborts the program. */
module FsmUnfinished {
  import opened Families
  import opened FsmAnswers
  import opened FsmInvariant
  import opened FsmModel
  import opened FsmRuns
  import opened FsmSteps
  import opened Limits
  import opened Rotation
  import opened RuliList

  // --------------------------------------------- leaving a body, exactly

  /** Trying the servers `visits` in order, from attempt `k` on: number `m` gives no connection,
      not even a failed one left over from an earlier attempt. */
  ghost predicate Fruitless(st: State, i: nat, visits: seq<nat>, env: Env, k: nat, m: nat)
    requires m < |visits|
  {
    && visits[m] < |st.servers| && !st.servers[visits[m]].open
    && (env.connect(i, k + m).NoSocket? || env.connect(i, k + m).Refused?)
    && forall l | 0 <= l < m && visits[l] == visits[m] :: env.connect(i, k + l).NoSocket?
  }

  ghost predicate AllFruitless(st: State, i: nat, visits: seq<nat>, env: Env, k: nat) {
    forall m | 0 <= m < |visits| :: Fruitless(st, i, visits, env, k, m)
  }

  /** The first attempt failed: what that changes for the others. */
  lemma FruitlessOne(st: State, st1: State, i: nat, visits: seq<nat>, env: Env, k: nat, m: nat)
    requires m + 1 < |visits| && visits[0] < |st.servers| && Fruitless(st, i, visits, env, k, 0)
    requires st1.servers == if env.connect(i, k).Refused? then SetOpen(st, visits[0], true).servers else st.servers
    ensures Fruitless(st1, i, visits[1..], env, k + 1, m) <==> Fruitless(st, i, visits, env, k, m + 1)
  {
    var rest := visits[1..];
    assert rest[m] == visits[m + 1] && k + 1 + m == k + (m + 1);
    if Fruitless(st1, i, rest, env, k + 1, m) {
      forall l | 0 <= l < m + 1 && visits[l] == visits[m + 1]
        ensures env.connect(i, k + l).NoSocket?
      {
        if l > 0 {
          assert rest[l - 1] == rest[m] && k + 1 + (l - 1) == k + l;
        }
      }
    }
    if Fruitless(st, i, visits, env, k, m + 1) {
      forall l | 0 <= l < m && rest[l] == rest[m]
        ensures env.connect(i, k + 1 + l).NoSocket?
      {
        assert visits[l + 1] == visits[m + 1] && k + 1 + l == k + (l + 1);
      }
    }
  }

  lemma FruitlessRest(st: State, st1: State, i: nat, visits: seq<nat>, env: Env, k: nat)
    requires visits != [] && visits[0] < |st.servers| && Fruitless(st, i, visits, env, k, 0)
    requires st1.servers == if env.connect(i, k).Refused? then SetOpen(st, visits[0], true).servers else st.servers
    ensures AllFruitless(st, i, visits, env, k) <==> AllFruitless(st1, i, visits[1..], env, k + 1)
  {
    hide Fruitless;
    var rest, k1 := visits[1..], k + 1;
    if AllFruitless(st, i, visits, env, k) {
      forall m | 0 <= m < |rest|
        ensures Fruitless(st1, i, rest, env, k1, m)
      {
        FruitlessOne(st, st1, i, visits, env, k, m);
      }
    }
    if AllFruitless(st1, i, rest, env, k1) {
      forall m | 0 <= m < |visits|
        ensures Fruitless(st, i, visits, env, k, m)
      {
        if m > 0 {
          FruitlessOne(st, st1, i, visits, env, k, m - 1);
        }
      }
    }
  }

  lemma FirstFruitless(st: State, i: nat, visits: seq<nat>, env: Env, k: nat)
    requires visits != [] && visits[0] < |st.servers|
    ensures Fruitless(st, i, visits, env, k, 0) <==>
            !st.servers[visits[0]].open && (env.connect(i, k).NoSocket? || env.connect(i, k).Refused?)
  {
  }

  /** The scan runs out of servers exactly when every server of the rotation is fruitless. */
  lemma {:induction false} RunsOutExactly(cfg: Config, st: State, i: nat, env: Env, k: nat)
    requires Shape(cfg, st) && i < |st.queries|
    ensures RunsOut(cfg, st, i, env, k) <==> AllFruitless(st, i, Visits(cfg.N(), st.queries[i].turn), env, k)
    decreases SwitchesLeft(cfg.N(), st.queries[i].turn)
  {
    hide Fruitless;
    var t, result := st.queries[i].turn, env.connect(i, k);
    var visits := Visits(cfg.N(), t);
    SwitchExact(cfg.N(), t);
    FirstFruitless(st, i, visits, env, k);
    if !st.servers[t.curr].open && (result.NoSocket? || result.Refused?) {
      var (st1, again) := Attempt(cfg, st, i, result);
      FruitlessRest(st, st1, i, visits, env, k);
      if again {
        RunsOutExactly(cfg, st1, i, env, k + 1);
        assert visits[1..] == Visits(cfg.N(), st1.queries[i].turn);
      } else {
        assert visits[1..] == [];
      }
    } else {
      assert !Fruitless(st, i, visits, env, k, 0);
    }
  }

  /** The switch is refused, or no server of the rotation behind it gives a connection. */
  ghost predicate NoServerLeft(cfg: Config, st: State, i: nat, env: Env)
    requires Shape(cfg, st) && i < |st.queries|
  {
    SwitchExact(cfg.N(), st.queries[i].turn);
    var (next, ok) := Switch(cfg.N(), st.queries[i].turn);
    ok ==> AllFruitless(st, i, Visits(cfg.N(), next), env, 0)
  }

  /** A buffer is in the way exactly in the program as it stands, where no server is left. */
  lemma StuckExactly(cfg: Config, st: State, i: nat, code: Code, env: Env)
    requires Shape(cfg, st) && i < |st.queries|
    ensures Stuck(cfg, st, i, code, env) <==>
            !cfg.repaired && st.queries[i].answer.Answer? && NoServerLeft(cfg, st, i, env)
  {
    hide Leave, RunsOut, Visits, AllFruitless;
    SwitchExact(cfg.N(), st.queries[i].turn);
    LeaveShape(cfg, st, i);
    var (st1, ok) := SwitchElseFinish(cfg, Leave(cfg, st, i), i, code);
    if ok {
      var next := st1.queries[i].turn;
      RunsOutExactly(cfg, st1, i, env, 0);
      SameFruitless(cfg, st, st1, i, Visits(cfg.N(), next), env);
    }
  }

  lemma SameFruitless(cfg: Config, a: State, b: State, i: nat, visits: seq<nat>, env: Env)
    requires |a.servers| == |b.servers| && forall s | 0 <= s < |a.servers| :: a.servers[s].open == b.servers[s].open
    ensures AllFruitless(a, i, visits, env, 0) <==> AllFruitless(b, i, visits, env, 0)
  {
    assert forall m | 0 <= m < |visits| :: Fruitless(a, i, visits, env, 0, m) <==> Fruitless(b, i, visits, env, 0, m);
  }

  /** A timeout aborts the program as it stands exactly when the query has some of an answer,
      as every query that receives a body has, and no server is left for it. */
  lemma TimeoutExactly(cfg: Config, st: State, e: Event, env: Env)
    requires Inv(cfg, st) && Enabled(cfg, st, e) && (e.HeadTimeout? || e.BodyTimeout?)
    ensures Step(cfg, st, e, env).Abort? <==>
            !cfg.repaired && st.queries[e.index].answer.Answer? && NoServerLeft(cfg, st, e.index, env)
    ensures e.BodyTimeout? ==> st.queries[e.index].answer.Answer?
  {
    hide Consistent, NoServerLeft, Stuck;
    QueryFacts(cfg, st, e.index);
    StuckExactly(cfg, st, e.index, CodeTimeout, env);
    StepAborts(cfg, st, e, env);
  }

  /** While the queries of a broken connection are moved on: exactly when one of them has some
      of an answer and, when its turn comes, no server left. */
  lemma {:induction false} AnyStuckExactly(cfg: Config, st: State, list: seq<nat>, env: Env)
    requires Shape(cfg, st) && forall k | 0 <= k < |list| :: list[k] < |st.queries|
    ensures AnyStuck(cfg, st, list, env) <==> exists p :: 0 <= p < |list| && StuckAt(cfg, st, list, p, env)
    decreases |list|
  {
    hide MoveOn, Stuck, NoServerLeft;
    if list != [] {
      var st1 := MoveOn(cfg, st, list[0], CodeConnect, env);
      StuckExactly(cfg, st, list[0], CodeConnect, env);
      AnyStuckExactly(cfg, st1, list[1..], env);
      assert list[..0] == [];
      assert StuckAt(cfg, st, list, 0, env) <==> Stuck(cfg, st, list[0], CodeConnect, env);
      forall p | 0 <= p < |list| - 1
        ensures StuckAt(cfg, st1, list[1..], p, env) <==> StuckAt(cfg, st, list, p + 1, env)
      {
        assert list[..p + 1][1..] == list[1..][..p];
      }
      if AnyStuck(cfg, st1, list[1..], env) {
        var p :| 0 <= p < |list| - 1 && StuckAt(cfg, st1, list[1..], p, env);
        assert StuckAt(cfg, st, list, p + 1, env);
      }
      if exists p :: 0 <= p < |list| && StuckAt(cfg, st, list, p, env) {
        var p :| 0 <= p < |list| && StuckAt(cfg, st, list, p, env);
        assert p > 0 ==> StuckAt(cfg, st1, list[1..], p - 1, env);
      }
    }
  }

  ghost predicate StuckAt(cfg: Config, st: State, list: seq<nat>, p: nat, env: Env)
    requires Shape(cfg, st) && p < |list| && forall k | 0 <= k < |list| :: list[k] < |st.queries|
  {
    var st1 := MoveAllOn(cfg, st, list[..p], env);
    !cfg.repaired && st1.queries[list[p]].answer.Answer? && NoServerLeft(cfg, st1, list[p], env)
  }

  // --------------------------------------- what becomes of such a query

  ghost predicate FlagError(code: Code) {
    || code.CodeAnswerOpcode? || code.CodeAnswerFlagQr? || code.CodeAnswerFlagRd?
    || code.CodeAnswerFlagRa? || code.CodeAnswerFlagZ?
  }

  /** It goes on over TCP, or was called back because of the flags of a later answer: not with
      success, and not for lack of servers or time. No buffer is left to a scheduled finish. */
  ghost predicate Fate(q: Query) {
    && (Unfinished(q) ==> (TcpStatus(q.status) && q.calls == 0 && !q.finish) || (q.calls == 1 && FlagError(q.code)))
    && (q.finish ==> q.answer.NoAnswer?)
  }

  /** Once a body is left unfinished, its buffer stays as it is. */
  ghost predicate Keeps(q: Query, r: Query) {
    Fate(q) ==> Fate(r) && (Unfinished(q) ==> Unfinished(r) && r.answer == q.answer)
  }

  ghost predicate AllKeep(a: State, b: State) {
    |b.queries| == |a.queries| && forall j | 0 <= j < |a.queries| :: Keeps(a.queries[j], b.queries[j])
  }

  lemma OthersKeep(a: State, b: State, i: nat)
    requires i < |a.queries| && Others(a, b, i) && Keeps(a.queries[i], b.queries[i])
    ensures AllKeep(a, b)
  {
  }

  /** A result keeps the buffer or frees it, and one with an error code is called back. */
  lemma ResultKeeps(cfg: Config, st: State, i: nat, q: Query, env: Env)
    requires Inv(cfg, st) && i < |st.queries| && !st.queries[i].status.Void?
    requires q.status.Void? && q.timer.NoTimer? && Live(q) && !q.code.CodeVoid? && AnswerOk(cfg, q)
    requires q.turn == st.queries[i].turn && q.search == st.queries[i].search && q.tries == st.queries[i].tries
    requires Unfinished(q) ==> FlagError(q.code)
    requires Unfinished(st.queries[i]) ==> q.answer == st.queries[i].answer
    ensures AllKeep(st, QueryDone(cfg, Set(Done(cfg, st, i), i, q), i, env))
  {
    hide Consistent, Done, Times, Want, NextJoin;
    QueryFacts(cfg, st, i);
    ResultTaken(cfg, st, i, q, env);
    DoneShape(cfg, st, i);
    var st1 := Set(Done(cfg, st, i), i, q);
    var r := QueryDone(cfg, st1, i, env);
    if q.code.CodeOk? {
      WantShape(cfg, Set(st1, i, Restarted(cfg, q).(tries := q.tries + 1)), i, UdpSend);
    }
    OthersKeep(st, r, i);
  }

  lemma MoveOnKeeps(cfg: Config, st: State, i: nat, code: Code, env: Env)
    requires Core(cfg, st) && i < |st.queries| && TcpStatus(st.queries[i].status) && !cfg.repaired
    requires !code.CodeVoid? && !code.CodeOk? && !Stuck(cfg, st, i, code, env)
    ensures AllKeep(st, MoveOn(cfg, st, i, code, env))
  {
    hide Consistent, MoveOn, Stuck;
    MoveOnIs(cfg, st, i, code, env);
    MoveOnCore(cfg, st, i, code, env);
    QueryFacts(cfg, MoveOn(cfg, st, i, code, env), i);
    OthersKeep(st, MoveOn(cfg, st, i, code, env), i);
  }

  lemma {:induction false} MoveAllKeeps(cfg: Config, st: State, list: seq<nat>, env: Env)
    requires Core(cfg, st) && !cfg.repaired && Distinct(list)
    requires forall k | 0 <= k < |list| :: list[k] < |st.queries| && TcpStatus(st.queries[list[k]].status)
    requires !AnyStuck(cfg, st, list, env)
    ensures AllKeep(st, MoveAllOn(cfg, st, list, env))
    decreases |list|
  {
    hide Consistent, MoveOn, Stuck, Keeps;
    if list == [] {
      KeepSelf(st);
    } else {
      var i, st1 := list[0], MoveOn(cfg, st, list[0], CodeConnect, env);
      MoveOnKeeps(cfg, st, i, CodeConnect, env);
      MoveOnCore(cfg, st, i, CodeConnect, env);
      OthersLower(cfg, st, st1, i);
      MoveAllKeeps(cfg, st1, list[1..], env);
      KeepTwice(st, st1, MoveAllOn(cfg, st1, list[1..], env));
    }
  }

  lemma KeepSelf(a: State)
    ensures AllKeep(a, a)
  {
  }

  lemma KeepTwice(a: State, b: State, c: State)
    requires AllKeep(a, b) && AllKeep(b, c)
    ensures AllKeep(a, c)
  {
  }

  lemma BrokenKeeps(cfg: Config, st: State, s: nat, env: Env)
    requires Inv(cfg, st) && s < cfg.N() && !cfg.repaired
    ensures var o := Broken(cfg, st, s, env); o.Progress? ==> AllKeep(st, o.state)
  {
    hide Consistent, AnyScanFails, AnyStuck, MoveAllOn;
    if Broken(cfg, st, s, env).Progress? {
      SetOpenCore(cfg, st, s, false);
      MoveAllKeeps(cfg, SetOpen(st, s, false), Affected(st.queries, s, |st.queries|), env);
    }
  }

  lemma UdpReadableKeeps(cfg: Config, st: State, family: Family, d: Datagram, env: Env)
    requires Inv(cfg, st) && !cfg.repaired
    ensures var o := OnUdpReadable(cfg, st, family, d, env); o.Progress? ==> AllKeep(st, o.state)
  {
    hide Consistent, Done, QueryDone, WantConnect, WantConnectFails, ResultFails;
    if d.Datagram? && FirstWithId(st.queries, d.id, 0) < |st.queries| {
      var i := FirstWithId(st.queries, d.id, 0);
      var q := st.queries[i].(status := Void, timer := NoTimer);
      if st.queries[i].status.UdpRecv? && OnUdpReadable(cfg, st, family, d, env).Progress? {
        QueryFacts(cfg, st, i);
        DoneShape(cfg, st, i);
        if !CheckAnswerFlags(d.flags, q.options.needRa).CodeOk? {
          ResultKeeps(cfg, st, i, q.(code := CheckAnswerFlags(d.flags, q.options.needRa)), env);
        } else if d.flags & MASK_TC == 0 {
          ResultKeeps(cfg, st, i, q.(answer := Answer(d.size, d.size), code := CodeOk, rcode := d.rcode, tc := false), env);
        } else {
          TruncatedKeeps(cfg, st, i, env);
        }
      }
    }
  }

  lemma TruncatedKeeps(cfg: Config, st: State, i: nat, env: Env)
    requires Inv(cfg, st) && i < |st.queries| && st.queries[i].status.UdpRecv?
    ensures AllKeep(st, WantConnect(cfg, Done(cfg, st, i), i, env, 0))
  {
    hide Consistent, Done, WantConnect;
    QueryFacts(cfg, st, i);
    DoneResult(cfg, st, i);
    WantConnectCore(cfg, Done(cfg, st, i), i, env, 0);
    WantConnectLands(cfg, Done(cfg, st, i), i, env, 0);
    OthersTrans(st, Done(cfg, st, i), WantConnect(cfg, Done(cfg, st, i), i, env, 0), i);
    OthersKeep(st, WantConnect(cfg, Done(cfg, st, i), i, env, 0), i);
  }

  lemma ResendKeeps(cfg: Config, st: State, i: nat, code: Code)
    requires Inv(cfg, st) && i < |st.queries| && (st.queries[i].status.UdpSend? || st.queries[i].status.UdpRecv?)
    requires !code.CodeVoid? && !code.CodeOk?
    ensures AllKeep(st, Resend(cfg, st, i, code))
  {
    hide Consistent, Resend;
    QueryFacts(cfg, st, i);
    ResendIs(cfg, st, i, code);
  }

  lemma SentKeeps(cfg: Config, st: State, i: nat, s: Status)
    requires Inv(cfg, st) && i < |st.queries|
    requires (st.queries[i].status.UdpSend? && s.UdpRecv?) || (st.queries[i].status.TcpSend? && s.TcpHead?)
    ensures AllKeep(st, Want(cfg, Done(cfg, st, i), i, s))
  {
    hide Consistent, Done, Want;
    QueryFacts(cfg, st, i);
    DoneShape(cfg, st, i);
    WantShape(cfg, Done(cfg, st, i), i, s);
  }

  lemma HeadKeeps(cfg: Config, st: State, i: nat, header: Header, env: Env)
    requires Inv(cfg, st) && i < |st.queries| && st.queries[i].status.TcpHead? && !HeadFails(cfg, st, i, header)
    ensures AllKeep(st, HeadAnswered(cfg, st, i, header, env))
  {
    hide Consistent, Done, Want, QueryDone, Times;
    QueryFacts(cfg, st, i);
    DoneShape(cfg, st, i);
    var q := st.queries[i].(status := Void, timer := NoTimer);
    var code := CheckAnswerFlags(header.flags, q.options.needRa);
    if !code.CodeOk? {
      ResultKeeps(cfg, st, i, q.(code := code), env);
    } else {
      WantShape(cfg, Set(Done(cfg, st, i), i, q.(answer := Answer(header.msgLen, MSG_HEADER), rcode := header.rcode,
                                                  tc := header.flags & MASK_TC != 0)), i, TcpBody);
    }
  }

  lemma FullHeadKeeps(cfg: Config, st: State, s: nat, header: Header, env: Env)
    requires Inv(cfg, st) && s < cfg.N() && !cfg.repaired
    ensures var o := OnFullHead(cfg, st, s, header, env); o.Progress? ==> AllKeep(st, o.state)
  {
    hide Consistent, HeadAnswered, Broken, HeadFails;
    BrokenKeeps(cfg, st, s, env);
    var i := FirstWithId(st.queries, header.id, 0);
    if i < |st.queries| && st.queries[i].status.TcpHead? && !HeadFails(cfg, st, i, header) {
      HeadKeeps(cfg, st, i, header, env);
    }
  }

  lemma HeadReadKeeps(cfg: Config, st: State, s: nat, received: RecvResult, header: Header, env: Env)
    requires Inv(cfg, st) && !cfg.repaired && Enabled(cfg, st, TcpReadable(s, received, header))
    requires FirstBody(st.queries, s, 0) == |st.queries|
    ensures var o := OnHead(cfg, st, s, received, header, env); o.Progress? ==> AllKeep(st, o.state)
  {
    hide Consistent, OnFullHead, Broken;
    BrokenKeeps(cfg, st, s, env);
    if received.Bytes? && 0 <= st.servers[s].headLen < TCP_HEADER {
      var st1 := SetHeadLen(st, s, st.servers[s].headLen + received.rd);
      HeadLenInv(cfg, st, s, st.servers[s].headLen + received.rd);
      FullHeadKeeps(cfg, st1, s, header, env);
    }
  }

  lemma BodyReadKeeps(cfg: Config, st: State, i: nat, received: RecvResult, env: Env)
    requires Inv(cfg, st) && i < |st.queries| && st.queries[i].status.TcpBody? && !cfg.repaired
    requires st.queries[i].answer.Answer?
    requires received.Bytes? ==> received.rd <= st.queries[i].answer.size - st.queries[i].answer.len
    ensures var o := OnBody(cfg, st, i, received, env); o.Progress? ==> AllKeep(st, o.state)
  {
    hide Consistent, Done, QueryDone, Broken, ResultFails;
    QueryFacts(cfg, st, i);
    BrokenKeeps(cfg, st, st.queries[i].turn.curr, env);
    if received.Bytes? && received.rd == st.queries[i].answer.size - st.queries[i].answer.len {
      BodyComplete(cfg, st, i, received.rd, env);
      var size := st.queries[i].answer.size;
      var q := st.queries[i].(status := Void, timer := NoTimer, code := CodeOk, answer := Answer(size, size));
      ResultKeeps(cfg, st, i, q, env);
    }
  }

  lemma TcpReadableKeeps(cfg: Config, st: State, e: Event, env: Env)
    requires Inv(cfg, st) && !cfg.repaired && e.TcpReadable? && Enabled(cfg, st, e)
    ensures var o := OnTcpReadable(cfg, st, e.server, e.received, e.header, env); o.Progress? ==> AllKeep(st, o.state)
  {
    hide Consistent, OnHead, OnBody;
    var i := FirstBody(st.queries, e.server, 0);
    if i == |st.queries| {
      HeadReadKeeps(cfg, st, e.server, e.received, e.header, env);
    } else {
      QueryFacts(cfg, st, i);
      BodyReadKeeps(cfg, st, i, e.received, env);
    }
  }

  lemma FinishKeeps(cfg: Config, st: State, i: nat, env: Env)
    requires Inv(cfg, st) && i < |st.queries| && st.queries[i].finish
    ensures AllKeep(st, QueryDone(cfg, Set(st, i, st.queries[i].(finish := false)), i, env))
  {
    hide Consistent;
    QueryFacts(cfg, st, i);
  }

  lemma UdpWritableKeeps(cfg: Config, st: State, sent: SendResult)
    requires Inv(cfg, st)
    ensures var o := OnUdpWritable(cfg, st, sent); o.Progress? ==> AllKeep(st, o.state)
  {
    hide Consistent, Done, Want, Resend;
    var i := FirstIn(st.queries, UdpSend, 0);
    if i < |st.queries| {
      ResendKeeps(cfg, st, i, CodeSend);
      SentKeeps(cfg, st, i, UdpRecv);
    }
  }

  lemma TcpWritableKeeps(cfg: Config, st: State, s: nat, sent: SendResult, env: Env)
    requires Inv(cfg, st) && s < cfg.N() && !cfg.repaired
    ensures var o := OnTcpWritable(cfg, st, s, sent, env); o.Progress? ==> AllKeep(st, o.state)
  {
    hide Consistent, Done, Want, Broken;
    BrokenKeeps(cfg, st, s, env);
    var i := FirstIn(st.queries, TcpSend, 0);
    if i < |st.queries| {
      SentKeeps(cfg, st, i, TcpHead);
    }
  }

  lemma ConnectResultKeeps(cfg: Config, st: State, s: nat, connected: bool, env: Env)
    requires Inv(cfg, st) && s < cfg.N() && !cfg.repaired
    ensures var o := OnConnectResult(cfg, st, s, connected, env); o.Progress? ==> AllKeep(st, o.state)
  {
    hide Consistent, Broken, ConnectToWrite, ScanHolds;
    BrokenKeeps(cfg, st, s, env);
    ConnectToWriteCore(cfg, st, s, 0);
  }

  /** Every event but a delete keeps the queries at their places, and the buffers of unfinished
      bodies with them. */
  lemma StepKeeps(cfg: Config, a: State, x: Stimulus, b: State)
    requires Inv(cfg, a) && !cfg.repaired && StepTo(cfg, a, x, b) && !x.event.Delete? && !x.event.Submit?
    ensures AllKeep(a, b)
  {
    hide Consistent, Keeps, Done, Want, QueryDone, Resend, MoveOn, MoveOnFails, Stuck,
         OnUdpWritable, OnUdpReadable, OnTcpWritable, OnTcpReadable, OnConnectResult;
    if a == b {
      KeepSelf(a);
    } else {
      match x.event
      case UdpWritable(sent) => UdpWritableKeeps(cfg, a, sent);
      case UdpReadable(family, d) => UdpReadableKeeps(cfg, a, family, d, x.env);
      case UdpTimeout(i) =>
        QueryFacts(cfg, a, i);
        ResendKeeps(cfg, a, i, CodeTimeout);
      case HeadTimeout(i) => TimeoutKeeps(cfg, a, i, x.env);
      case BodyTimeout(i) => TimeoutKeeps(cfg, a, i, x.env);
      case ConnectResult(s, connected) => ConnectResultKeeps(cfg, a, s, connected, x.env);
      case TcpWritable(s, sent) => TcpWritableKeeps(cfg, a, s, sent, x.env);
      case TcpReadable(s, received, header) => TcpReadableKeeps(cfg, a, x.event, x.env);
      case FinishNow(i) => FinishKeeps(cfg, a, i, x.env);
    }
  }

  lemma TimeoutKeeps(cfg: Config, st: State, i: nat, env: Env)
    requires Inv(cfg, st) && !cfg.repaired && i < |st.queries|
    requires st.queries[i].timer.TcpHeadTimer? || st.queries[i].timer.TcpBodyTimer?
    ensures var o := OnReadTimeout(cfg, st, i, env); o.Progress? ==> AllKeep(st, o.state)
  {
    hide Consistent, MoveOn, Stuck, MoveOnScanFails;
    QueryFacts(cfg, st, i);
    if !Stuck(cfg, st, i, CodeTimeout, env) {
      MoveOnKeeps(cfg, st, i, CodeTimeout, env);
    }
  }

  // ------------------------------------------------------------- runs

  /** Where the query at index `i` is after the event; -1 when it was deleted. */
  function NextPlace(a: State, e: Event, i: int): int {
    if i < 0 || !e.Delete? then i
    else if e.index == i then -1
    else if i == |a.queries| - 1 then e.index
    else i
  }

  /** Where the query at index `i` after `k` events is after `l`. */
  function Place(sts: seq<State>, xs: seq<Stimulus>, k: nat, l: nat, i: nat): int
    requires k <= l <= |xs| && |sts| == |xs| + 1
  {
    if l == k then i else NextPlace(sts[l - 1], xs[l - 1].event, Place(sts, xs, k, l - 1, i))
  }

  lemma StepPlace(cfg: Config, a: State, x: Stimulus, b: State, i: nat)
    requires Inv(cfg, a) && !cfg.repaired && StepTo(cfg, a, x, b) && i < |a.queries|
    ensures var p := NextPlace(a, x.event, i); p >= 0 ==> p < |b.queries| && Keeps(a.queries[i], b.queries[p])
  {
    hide Consistent;
    if x.event.Submit? {
      SubmitInv(cfg, a, x.event.options, x.event.starts);
      assert b.queries[..|a.queries|][i] == a.queries[i];
    } else if x.event.Delete? {
      DroppedAt(a.queries, x.event.index);
    } else {
      StepKeeps(cfg, a, x, b);
    }
  }

  /** Every query of the new state was there before, or is new and has no buffer. */
  lemma StepFate(cfg: Config, a: State, x: Stimulus, b: State)
    requires Inv(cfg, a) && !cfg.repaired && StepTo(cfg, a, x, b)
    requires forall i | 0 <= i < |a.queries| :: Fate(a.queries[i])
    ensures forall i | 0 <= i < |b.queries| :: Fate(b.queries[i])
  {
    hide Consistent, Want;
    if x.event.Submit? {
      SubmitFate(cfg, a, x.event.options, x.event.starts);
    } else if x.event.Delete? {
      DroppedAt(a.queries, x.event.index);
    } else {
      StepKeeps(cfg, a, x, b);
    }
  }

  lemma SubmitFate(cfg: Config, a: State, options: Options, starts: bool)
    requires Inv(cfg, a)
    ensures var b := OnSubmit(cfg, a, options, starts);
            && |b.queries| == |a.queries| + 1 && b.queries[..|a.queries|] == a.queries
            && b.queries[|a.queries|].answer.NoAnswer?
            && (forall i | 0 <= i < |a.queries| :: b.queries[i] == a.queries[i])
  {
    hide Consistent, Want;
    SubmitInv(cfg, a, options, starts);
    var b := OnSubmit(cfg, a, options, starts);
    var st1 := a.(queries := a.queries + [NewQuery(cfg, a, options).(tries := 1)],
                  nextServer := Following(cfg.N(), a.nextServer), nextId := (a.nextId + 1) % 0x1_0000);
    WantShape(cfg, st1, |a.queries|, UdpSend);
    forall i | 0 <= i < |a.queries|
      ensures b.queries[i] == a.queries[i]
    {
      assert b.queries[..|a.queries|][i] == b.queries[i];
    }
  }

  lemma {:induction false} RunFate(cfg: Config, sts: seq<State>, xs: seq<Stimulus>, k: nat)
    requires Run(cfg, sts, xs) && !cfg.repaired && k < |sts|
    ensures forall i | 0 <= i < |sts[k].queries| :: Fate(sts[k].queries[i])
  {
    hide Inv, StepTo, Fate;
    if k > 0 {
      RunFate(cfg, sts, xs, k - 1);
      RunInv(cfg, sts, xs, k - 1);
      assert StepAt(cfg, sts, xs, k - 1);
      StepFate(cfg, sts[k - 1], xs[k - 1], sts[k]);
    }
  }

  /** In every run of the program as it stands: a query that left a body unfinished keeps that
      buffer for good, and never calls back with success, nor for lack of servers or time. It
      goes on over TCP until it is deleted, an answer with wrong flags ends it, or the program
      aborts. */
  lemma {:induction false} UnfinishedForGood(cfg: Config, sts: seq<State>, xs: seq<Stimulus>, k: nat, l: nat, i: nat)
    requires Run(cfg, sts, xs) && !cfg.repaired && k <= l < |sts|
    requires i < |sts[k].queries| && Unfinished(sts[k].queries[i])
    ensures var p := Place(sts, xs, k, l, i);
            p >= 0 ==> p < |sts[l].queries|
                       && Unfinished(sts[l].queries[p]) && sts[l].queries[p].answer == sts[k].queries[i].answer
                       && Fate(sts[l].queries[p])
    decreases l - k
  {
    hide Inv, StepTo, Fate, Unfinished;
    RunFate(cfg, sts, xs, l);
    if l > k {
      UnfinishedForGood(cfg, sts, xs, k, l - 1, i);
      RunInv(cfg, sts, xs, l - 1);
      assert StepAt(cfg, sts, xs, l - 1);
      var p := Place(sts, xs, k, l - 1, i);
      if p >= 0 {
        StepPlace(cfg, sts[l - 1], xs[l - 1], sts[l], p);
      }
    }
  }
}
