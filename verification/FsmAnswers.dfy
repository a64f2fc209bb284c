/** What an event does to the query it is about, and what a query calls back with. */
module FsmAnswers {
  import opened Families
  import opened FsmInvariant
  import opened FsmModel
  import opened FsmRuns
  import opened FsmSteps
  import opened Limits
  import opened Rotation

  /** A callback with success comes with a whole answer that is not truncated; the code of any
      other callback is an error. */
  ghost predicate Delivered(q: Query) {
    q.calls == 1 && q.code.CodeOk? ==> q.answer.Answer? && q.answer.len == q.answer.size && !q.tc
  }

  lemma RunDelivers(cfg: Config, sts: seq<State>, xs: seq<Stimulus>, k: nat, i: nat)
    requires Run(cfg, sts, xs) && k < |sts| && i < |sts[k].queries|
    ensures Delivered(sts[k].queries[i])
    ensures sts[k].queries[i].calls == 1 ==> !sts[k].queries[i].code.CodeVoid?
    ensures var q := sts[k].queries[i];
            q.calls == 1 && q.code.CodeOk? && q.options.search && q.search + 1 < |cfg.suffixes| ==>
              q.rcode != 2 && q.rcode != 3
  {
    RunInv(cfg, sts, xs, k);
    QueryFacts(cfg, sts[k], i);
  }

  // ---------------------------------------------------------------- results

  /** The name is missing and a suffix is tried. */
  ghost predicate GoesOn(cfg: Config, q: Query, env: Env) {
    TriesSuffix(cfg, q) && !q.tc && NextJoin(cfg, q).Joins? && env.startOk
  }

  /** Unless the next suffix is tried, a result is called back as it is, but for a truncated
      one and a suffix that cannot be tried; a query that goes on is sent over UDP, with the
      next suffix, all its retries and no answer. */
  lemma ResultIs(cfg: Config, st: State, i: nat, env: Env)
    requires Core(cfg, st) && i < |st.queries| && st.queries[i].status.Void?
    requires Live(st.queries[i]) && !st.queries[i].code.CodeVoid?
    ensures var q, r := st.queries[i], QueryDone(cfg, st, i, env).queries[i];
            && (GoesOn(cfg, q, env) ==>
                  && r.status.UdpSend? && r.search == q.search + 1 && r.calls == 0
                  && r.answer.NoAnswer? && r.turn == Turn(q.turn.curr, q.turn.curr, cfg.retry))
            && (!GoesOn(cfg, q, env) ==>
                  && r.status.Void? && r.calls == 1
                  && (r.code.CodeOk? ==> r.answer == q.answer && q.code.CodeOk? && !q.tc && !TriesSuffix(cfg, q))
                  && (q.code.CodeOk? && !q.tc && !TriesSuffix(cfg, q) ==> r.code.CodeOk?)
                  && (!q.code.CodeOk? ==> r.code == q.code))
  {
    hide Want, Consistent;
    QueryFacts(cfg, st, i);
    if GoesOn(cfg, st.queries[i], env) {
      WantShape(cfg, Set(st, i, Restarted(cfg, st.queries[i]).(tries := st.queries[i].tries + 1)), i, UdpSend);
    }
  }

  // --------------------------------------------------------- response codes

  /** The next suffix is to be tried, and the lengths of the two names fail an assertion. */
  ghost predicate Unjoinable(cfg: Config, q: Query, rcode: nat) {
    && q.options.search && (rcode == 2 || rcode == 3) && 0 <= q.search + 1 < |cfg.suffixes|
    && !(0 < q.options.nameLen < 255 && 0 < cfg.suffixes[q.search + 1] < 255)
  }

  /** What becomes of a whole answer. A truncated one ends the query with an error. A server
      failure (2) or a name error (3) makes a query that searches, and has a suffix left, go on
      with it, over UDP and with all its retries, unless the joined name is too long or cannot
      be sent for. Every other answer is called back with success. */
  ghost predicate ByResponse(cfg: Config, q: Query, rcode: nat, tc: bool, size: nat, env: Env, r: Query) {
    && r.options == q.options && r.id == q.id
    && if tc then r.status.Void? && r.calls == 1 && r.code.CodeAnswerTrunc? && r.search == q.search
       else if q.options.search && (rcode == 2 || rcode == 3) && 0 <= q.search + 1 < |cfg.suffixes| then
         && r.search == q.search + 1
         && (if q.options.nameLen - 1 + cfg.suffixes[r.search] > 255 then
               r.status.Void? && r.calls == 1 && r.code.CodeConcatSearchList?
             else if !env.startOk then
               r.status.Void? && r.calls == 1 && r.code.CodeLaunchSearchList?
             else
               && r.status.UdpSend? && r.calls == 0 && r.code.CodeVoid? && r.answer.NoAnswer?
               && r.turn == Turn(q.turn.curr, q.turn.curr, cfg.retry))
       else
         && r.status.Void? && r.calls == 1 && r.code.CodeOk? && r.search == q.search
         && r.answer == Answer(size, size) && r.rcode == rcode && r.turn == q.turn
  }

  lemma ResponseIs(cfg: Config, st: State, i: nat, rcode: nat, tc: bool, size: nat, env: Env)
    requires Inv(cfg, st) && i < |st.queries| && !st.queries[i].status.Void?
    ensures var q := st.queries[i];
            var a := q.(status := Void, timer := NoTimer, answer := Answer(size, size), code := CodeOk, rcode := rcode, tc := tc);
            && ShapeOf(cfg, Done(cfg, st, i), |st.queries|)
            && (ResultFails(cfg, a) <==> !tc && Unjoinable(cfg, q, rcode))
            && (!ResultFails(cfg, a) ==>
                  ByResponse(cfg, q, rcode, tc, size, env, QueryDone(cfg, Set(Done(cfg, st, i), i, a), i, env).queries[i]))
  {
    hide Consistent, Done, Want, Times;
    QueryFacts(cfg, st, i);
    DoneShape(cfg, st, i);
    var a := st.queries[i].(status := Void, timer := NoTimer, answer := Answer(size, size), code := CodeOk,
                            rcode := rcode, tc := tc);
    WantShape(cfg, Set(Set(Done(cfg, st, i), i, a), i, Restarted(cfg, a).(tries := a.tries + 1)), i, UdpSend);
  }

  // -------------------------------------------------------------------- UDP

  /** The query a datagram is taken for. */
  ghost predicate Addressed(st: State, d: Datagram, i: nat) {
    && d.Datagram? && 12 <= d.size <= 512
    && i == FirstWithId(st.queries, d.id, 0) < |st.queries| && st.queries[i].status.UdpRecv?
  }

  /** A datagram changes a query only if the query waits for one with that id: other queries
      keep their state, but that connecting may become sending. A response with wrong flags
      ends the query, a truncated one moves it to TCP or out of servers and is never its
      answer, and a correct one is. */
  lemma UdpDelivers(cfg: Config, st: State, family: Family, d: Datagram, env: Env, i: nat)
    requires Inv(cfg, st) && i < |st.queries|
    ensures var o := OnUdpReadable(cfg, st, family, d, env);
            o.Progress? ==>
              && |o.state.queries| == |st.queries|
              && (!Addressed(st, d, i) ==> Calm(st.queries[i], o.state.queries[i]))
              && (Addressed(st, d, i) ==> Taken(cfg, st.queries[i], d, env, o.state.queries[i]))
    ensures (exists k :: 0 <= k < |st.queries| && Addressed(st, d, k)) <==> !OnUdpReadable(cfg, st, family, d, env).Idle?
    ensures Addressed(st, d, i) ==>
              var q := st.queries[i];
              (OnUdpReadable(cfg, st, family, d, env).Abort? <==>
                 || cfg.families[q.turn.curr] != family
                 || (CheckAnswerFlags(d.flags, q.options.needRa).CodeOk? && d.flags & 0x0200 == 0 && Unjoinable(cfg, q, d.rcode)))
  {
    hide Consistent, UdpAnswered, UdpAnswerFails;
    ScanHoldsBetween(cfg, st);
    if Addressed(st, d, i) {
      UdpAnswerSafe(cfg, st, i, d, env);
      ResponseIs(cfg, st, i, d.rcode, false, d.size, env);
    }
    if d.Datagram? {
      var k := FirstWithId(st.queries, d.id, 0);
      if k < |st.queries| && Addressed(st, d, k) && !UdpAnswerFails(cfg, st, k, d, env) {
        UdpTaken(cfg, st, d, env, k);
      }
    }
  }

  /** What a datagram does to its query. */
  ghost predicate Taken(cfg: Config, q: Query, d: Datagram, env: Env, r: Query)
    requires d.Datagram?
  {
    var code := CheckAnswerFlags(d.flags, q.options.needRa);
    if !code.CodeOk? then r.status.Void? && r.calls == 1 && r.code == code
    else if d.flags & 0x0200 != 0 then
      && r.calls == 0 && r.search == q.search && r.answer.NoAnswer?
      && (r.status.TcpSend? || r.status.TcpConnect? || (r.status.Void? && r.finish && r.code.CodeConnect?))
    else ByResponse(cfg, q, d.rcode, false, d.size, env, r)
  }

  lemma UdpTaken(cfg: Config, st: State, d: Datagram, env: Env, i: nat)
    requires Inv(cfg, st) && Addressed(st, d, i) && !UdpAnswerFails(cfg, st, i, d, env)
    ensures var r := UdpAnswered(cfg, st, i, d, env);
            Others(st, r, i) && Taken(cfg, st.queries[i], d, env, r.queries[i])
  {
    hide Consistent, Done, QueryDone, WantConnect, Times;
    QueryFacts(cfg, st, i);
    DoneResult(cfg, st, i);
    var st1 := Done(cfg, st, i);
    var code := CheckAnswerFlags(d.flags, st.queries[i].options.needRa);
    if !code.CodeOk? {
      ResultTaken(cfg, st, i, st1.queries[i].(code := code), env);
    } else if d.flags & MASK_TC != 0 {
      WantConnectCore(cfg, st1, i, env, 0);
      OthersTrans(st, st1, WantConnect(cfg, st1, i, env, 0), i);
      WantConnectLands(cfg, st1, i, env, 0);
    } else {
      var q := st1.queries[i].(answer := Answer(d.size, d.size), code := CodeOk, rcode := d.rcode, tc := false);
      ResultTaken(cfg, st, i, q, env);
      ResponseIs(cfg, st, i, d.rcode, false, d.size, env);
    }
  }

  lemma ResultTaken(cfg: Config, st: State, i: nat, q: Query, env: Env)
    requires Inv(cfg, st) && i < |st.queries| && !st.queries[i].status.Void?
    requires q.status.Void? && q.timer.NoTimer? && Live(q) && !q.code.CodeVoid? && AnswerOk(cfg, q)
    requires q.turn == st.queries[i].turn && q.search == st.queries[i].search && q.tries == st.queries[i].tries
    ensures var st2 := Set(Done(cfg, st, i), i, q);
            var r := QueryDone(cfg, st2, i, env);
            && Others(st, r, i)
            && (GoesOn(cfg, q, env) ==> r.queries[i].status.UdpSend? && r.queries[i].search == q.search + 1)
            && (!GoesOn(cfg, q, env) ==>
                  && r.queries[i].status.Void? && r.queries[i].calls == 1
                  && (r.queries[i].code.CodeOk? <==> q.code.CodeOk? && !q.tc && !TriesSuffix(cfg, q))
                  && (r.queries[i].code.CodeOk? ==> r.queries[i].answer == q.answer)
                  && (!q.code.CodeOk? ==> r.queries[i].code == q.code))
  {
    hide Consistent, Done, QueryDone, Times, QueryOk;
    QueryFacts(cfg, st, i);
    ResultOk(cfg, st.queries[i], q);
    DoneResult(cfg, st, i);
    var st1 := Done(cfg, st, i);
    UpdateCore(cfg, st1, i, q);
    var st2 := Set(st1, i, q);
    QueryDoneCore(cfg, st2, i, env);
    ResultIs(cfg, st2, i, env);
    OthersTrans(st, st2, QueryDone(cfg, st2, i, env), i);
  }

  /** The scan for a connection leaves the query waiting on one, or out of servers. */
  lemma {:induction false} WantConnectLands(cfg: Config, st: State, i: nat, env: Env, k: nat)
    requires Core(cfg, st) && i < |st.queries| && CanWant(cfg, st, i, TcpSend)
    ensures var r := WantConnect(cfg, st, i, env, k).queries[i];
            && r.calls == 0 && r.search == st.queries[i].search && r.answer == st.queries[i].answer
            && (if RunsOut(cfg, st, i, env, k) then r.status.Void? && r.finish && r.code == CodeConnect
                else r.status.TcpSend? || r.status.TcpConnect?)
    decreases SwitchesLeft(cfg.N(), st.queries[i].turn)
  {
    hide Consistent, Want, ConnectToWrite, SwitchElseFinish;
    var s := st.queries[i].turn.curr;
    var st0 := SetOpen(st, s, true);
    SetOpenCore(cfg, st, s, true);
    if st.servers[s].open {
      WantResult(cfg, st, i, TcpSend);
    } else {
      match env.connect(i, k)
      case Immediate =>
        WantResult(cfg, st0, i, TcpSend);
        ConnectToWriteCore(cfg, Want(cfg, st0, i, TcpSend), s, 0);
      case InProgress =>
        WantResult(cfg, st0, i, TcpConnect);
      case NoSocket =>
        SwitchLands(cfg, st, i);
        if SwitchElseFinish(cfg, st, i, CodeConnect).1 {
          WantConnectLands(cfg, SwitchElseFinish(cfg, st, i, CodeConnect).0, i, env, k + 1);
        }
      case Refused =>
        SwitchLands(cfg, st0, i);
        if SwitchElseFinish(cfg, st0, i, CodeConnect).1 {
          WantConnectLands(cfg, SwitchElseFinish(cfg, st0, i, CodeConnect).0, i, env, k + 1);
        }
    }
  }

  lemma SwitchLands(cfg: Config, st: State, i: nat)
    requires Core(cfg, st) && i < |st.queries| && CanWant(cfg, st, i, TcpSend)
    ensures var (r, ok) := SwitchElseFinish(cfg, st, i, CodeConnect);
            && (ok ==> Core(cfg, r) && CanWant(cfg, r, i, TcpSend)
                       && SwitchesLeft(cfg.N(), r.queries[i].turn) < SwitchesLeft(cfg.N(), st.queries[i].turn))
            && r.queries[i].calls == 0 && r.queries[i].search == st.queries[i].search
            && r.queries[i].answer == st.queries[i].answer
            && (!ok ==> r.queries[i].status.Void? && r.queries[i].finish && r.queries[i].code == CodeConnect)
  {
    hide Consistent;
    SwitchExact(cfg.N(), st.queries[i].turn);
    SwitchCore(cfg, st, i, CodeConnect);
  }

  // ------------------------------------------------------- timeouts, failures

  /** A query that gives up its server over UDP asks the next one, or finishes with the code. */
  lemma ResendIs(cfg: Config, st: State, i: nat, code: Code)
    requires Inv(cfg, st) && i < |st.queries| && (st.queries[i].status.UdpSend? || st.queries[i].status.UdpRecv?)
    requires !code.CodeVoid? && !code.CodeOk?
    ensures var q, r := st.queries[i], Resend(cfg, st, i, code);
            var (turn, ok) := Switch(cfg.N(), q.turn);
            && r.queries == st.queries[i := r.queries[i]]
            && r.queries[i] == if ok then q.(status := UdpSend, timer := NoTimer, turn := turn, tries := q.tries + 1)
                               else q.(status := Void, timer := NoTimer, turn := turn, finish := true, code := code)
  {
    hide Consistent, Done, Want;
    DoneShape(cfg, st, i);
    var (st1, ok) := SwitchElseFinish(cfg, Done(cfg, st, i), i, code);
    if ok {
      WantShape(cfg, st1, i, UdpSend);
    }
  }

  /** Over TCP it waits on a connection to a later server, or finishes: with the code if no
      server was left to switch to, with a connect failure if none could be connected to. */
  lemma MoveOnIs(cfg: Config, st: State, i: nat, code: Code, env: Env)
    requires Core(cfg, st) && i < |st.queries| && TcpStatus(st.queries[i].status)
    requires !code.CodeVoid? && !code.CodeOk?
    ensures var q, r := st.queries[i], MoveOn(cfg, st, i, code, env).queries[i];
            && r.calls == 0 && r.answer == (if cfg.repaired then NoAnswer else q.answer) && r.search == q.search
            && (!Switch(cfg.N(), q.turn).1 ==> r.status.Void? && r.finish && r.code == code)
            && (Switch(cfg.N(), q.turn).1 ==>
                  r.status.TcpSend? || r.status.TcpConnect? || (r.status.Void? && r.finish && r.code == CodeConnect))
            && (q.answer.Answer? && !cfg.repaired ==> (Stuck(cfg, st, i, code, env) <==> r.status.Void?))
  {
    hide Consistent, Leave, Want, WantConnect, CanWant;
    QueryFacts(cfg, st, i);
    LeaveCore(cfg, st, i);
    LeaveShape(cfg, st, i);
    var st1 := Leave(cfg, st, i);
    SwitchCore(cfg, st1, i, code);
    var (st2, ok) := SwitchElseFinish(cfg, st1, i, code);
    if ok {
      WantConnectLands(cfg, st2, i, env, 0);
    }
  }

  // -------------------------------------------------------------------- TCP

  /** The last bytes of a body end the query with the whole answer of the announced length, as
      its response code says. */
  lemma BodyDelivers(cfg: Config, st: State, i: nat, rd: nat, env: Env)
    requires Inv(cfg, st) && i < |st.queries| && st.queries[i].status.TcpBody?
    requires st.queries[i].answer.Answer? && rd == st.queries[i].answer.size - st.queries[i].answer.len
    ensures var o, q := OnBody(cfg, st, i, Bytes(rd), env), st.queries[i];
            && (o.Abort? <==> !q.tc && Unjoinable(cfg, q, q.rcode)) && !o.Idle?
            && (o.Progress? ==>
                  && Others(st, o.state, i)
                  && ByResponse(cfg, q, q.rcode, q.tc, q.answer.size, env, o.state.queries[i]))
  {
    hide Consistent, OnBody, QueryDone, ResultFails;
    QueryFacts(cfg, st, i);
    BodyComplete(cfg, st, i, rd, env);
    var q := st.queries[i];
    ResultTaken(cfg, st, i, q.(status := Void, timer := NoTimer, code := CodeOk,
                               answer := Answer(q.answer.size, q.answer.size)), env);
    ResponseIs(cfg, st, i, q.rcode, q.tc, q.answer.size, env);
  }

  /** A whole header leaves its query with a code for wrong flags, or receiving the body that it
      announces: the response code and the truncation of the answer are those of the header. */
  ghost predicate HeadTaken(q: Query, header: Header, r: Query) {
    var code := CheckAnswerFlags(header.flags, q.options.needRa);
    && r.options == q.options && r.id == q.id && r.search == q.search && r.turn == q.turn
    && (if code.CodeOk? then
          && r.status.TcpBody? && r.calls == 0 && r.answer == Answer(header.msgLen, 12)
          && r.rcode == header.rcode && (r.tc <==> header.flags & 0x0200 != 0)
        else r.status.Void? && r.calls == 1 && r.code == code)
  }

  lemma HeadDelivers(cfg: Config, st: State, i: nat, header: Header, env: Env)
    requires Inv(cfg, st) && i < |st.queries| && st.queries[i].status.TcpHead?
    ensures HeadTaken(st.queries[i], header, HeadAnswered(cfg, st, i, header, env).queries[i])
  {
    hide Consistent, Done, Want;
    QueryFacts(cfg, st, i);
    DoneShape(cfg, st, i);
    var st1 := Done(cfg, st, i);
    var q := st1.queries[i].(answer := Answer(header.msgLen, MSG_HEADER), rcode := header.rcode,
                             tc := header.flags & MASK_TC != 0);
    WantShape(cfg, Set(st1, i, q), i, TcpBody);
  }
}
