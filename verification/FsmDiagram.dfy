/** The diagram of the query state machine: which queries an event is about, and what becomes of
    each of them. All others keep their state, but that connecting may become sending. */
module FsmDiagram {
  import opened Families
  import opened FsmAnswers
  import opened FsmBroken
  import opened FsmInvariant
  import opened FsmModel
  import opened FsmRuns
  import opened FsmSteps
  import opened Limits
  import opened Rotation

  /** It is the first query in the status. */
  ghost predicate FirstWaiting(st: State, s: Status, j: nat) {
    j < |st.queries| && st.queries[j].status == s && forall k | 0 <= k < j :: st.queries[k].status != s
  }

  /** It is the first query that receives a body on connection `s`. */
  ghost predicate ReadsBody(st: State, s: nat, j: nat) {
    && j < |st.queries| && st.queries[j].status.TcpBody? && st.queries[j].turn.curr == s
    && forall k | 0 <= k < j && st.queries[k].status.TcpBody? :: st.queries[k].turn.curr != s
  }

  ghost predicate NoBody(st: State, s: nat) {
    forall k | 0 <= k < |st.queries| && st.queries[k].status.TcpBody? :: st.queries[k].turn.curr != s
  }

  ghost predicate Uses(st: State, s: nat, j: nat) {
    j < |st.queries| && TcpStatus(st.queries[j].status) && st.queries[j].turn.curr == s
  }

  /** It is the first query with the id. */
  ghost predicate FirstNamed(st: State, id: nat, j: nat) {
    j < |st.queries| && st.queries[j].id == id && forall k | 0 <= k < j :: st.queries[k].id != id
  }

  /** The header on connection `s` is for nobody: it announces less than a query, or its id is
      unknown; repaired, also the id of a query that waits for no header there. */
  ghost predicate ForNobody(cfg: Config, st: State, s: nat, header: Header) {
    || header.msgLen < 17
    || (forall k | 0 <= k < |st.queries| :: st.queries[k].id != header.id)
    || (cfg.repaired && exists k: nat :: FirstNamed(st, header.id, k)
                                       && !(st.queries[k].status.TcpHead? && st.queries[k].turn.curr == s))
  }

  /** The read completes a header of fourteen octets on connection `s`. */
  ghost predicate Headed(st: State, s: nat, received: RecvResult) {
    s < |st.servers| && NoBody(st, s) && received.Bytes? && st.servers[s].headLen + received.rd >= 14
  }

  /** The read finds connection `s` closed or failed. */
  ghost predicate Lost(received: RecvResult) {
    received.RecvClosed? || received.RecvFail?
  }

  /** The queries the event is about. */
  ghost predicate Concerned(cfg: Config, st: State, e: Event, j: nat) {
    j < |st.queries| &&
    match e
    case Submit(_, _) => false
    case Delete(_) => false
    case UdpWritable(sent) => !sent.SendWouldBlock? && FirstWaiting(st, UdpSend, j)
    case UdpReadable(_, d) => Addressed(st, d, j)
    case UdpTimeout(i) => i == j
    case HeadTimeout(i) => i == j
    case BodyTimeout(i) => i == j
    case ConnectResult(s, connected) => Uses(st, s, j) && (connected ==> st.queries[j].status.TcpConnect?)
    case TcpWritable(s, sent) =>
      if sent.SendFail? then Uses(st, s, j) else sent.Sent? && FirstWaiting(st, TcpSend, j)
    case TcpReadable(s, received, header) =>
      if Lost(received) then Uses(st, s, j)
      else if Headed(st, s, received) then
        if ForNobody(cfg, st, s, header) then Uses(st, s, j) else FirstNamed(st, header.id, j)
      else received.Bytes? && ReadsBody(st, s, j)
    case FinishNow(i) => i == j
  }

  /** Over UDP a query tries its next server, or is about to finish with the code. */
  ghost predicate NextUdp(cfg: Config, q: Query, code: Code, r: Query)
    requires TurnOk(cfg.N(), q.turn)
  {
    var (turn, ok) := Switch(cfg.N(), q.turn);
    r == if ok then q.(status := UdpSend, timer := NoTimer, turn := turn, tries := q.tries + 1)
         else q.(status := Void, timer := NoTimer, turn := turn, finish := true, code := code)
  }

  /** Over TCP it waits for a connection to a later server or to send on one, or is about to
      finish: with the code if no switch was left, else for want of a connection. */
  ghost predicate NextTcp(cfg: Config, q: Query, code: Code, r: Query)
    requires TurnOk(cfg.N(), q.turn)
  {
    var ok := Switch(cfg.N(), q.turn).1;
    && r.calls == 0 && r.search == q.search && r.answer == (if cfg.repaired then NoAnswer else q.answer)
    && if r.status.Void? then r.finish && r.code == if ok then CodeConnect else code
       else ok && r.code.CodeVoid? && (r.status.TcpSend? || r.status.TcpConnect?)
  }

  ghost predicate BodyTaken(cfg: Config, q: Query, rd: nat, env: Env, r: Query) {
    q.answer.Answer? &&
    if q.answer.len + rd < q.answer.size then r == q.(answer := Answer(q.answer.size, q.answer.len + rd))
    else ByResponse(cfg, q, q.rcode, q.tc, q.answer.size, env, r)
  }

  /** What the event makes of a query it is about. */
  ghost predicate Becomes(cfg: Config, st: State, x: Stimulus, q: Query, r: Query)
    requires TurnOk(cfg.N(), q.turn)
  {
    match x.event
    case Submit(_, _) => false
    case Delete(_) => false
    case UdpWritable(sent) =>
      if sent.Sent? then r == q.(status := UdpRecv, timer := UdpReadTimer) else NextUdp(cfg, q, CodeSend, r)
    case UdpReadable(_, d) => d.Datagram? && Taken(cfg, q, d, x.env, r)
    case UdpTimeout(_) => NextUdp(cfg, q, CodeTimeout, r)
    case HeadTimeout(_) => NextTcp(cfg, q, CodeTimeout, r)
    case BodyTimeout(_) => NextTcp(cfg, q, CodeTimeout, r)
    case ConnectResult(_, connected) =>
      if connected then r == q.(status := TcpSend) else NextTcp(cfg, q, CodeConnect, r)
    case TcpWritable(_, sent) =>
      if sent.Sent? then r == q.(status := TcpHead, timer := TcpHeadTimer) else NextTcp(cfg, q, CodeConnect, r)
    case TcpReadable(s, received, header) =>
      if Lost(received) || (Headed(st, s, received) && ForNobody(cfg, st, s, header)) then NextTcp(cfg, q, CodeConnect, r)
      else if Headed(st, s, received) then q.status.TcpHead? && HeadTaken(q, header, r)
      else received.Bytes? && BodyTaken(cfg, q, received.rd, x.env, r)
    case FinishNow(_) => r == q.(finish := false, calls := 1)
  }

  ghost predicate Drawn(cfg: Config, a: State, x: Stimulus, b: State)
    requires Shape(cfg, a)
  {
    && |b.queries| == |a.queries|
    && forall j: nat | j < |a.queries| ::
         if Concerned(cfg, a, x.event, j) then Becomes(cfg, a, x, a.queries[j], b.queries[j])
         else Calm(a.queries[j], b.queries[j])
  }

  // ------------------------------------------------------------ connections

  lemma NextTcpCalm(cfg: Config, q: Query, code: Code, r: Query, t: Query)
    requires TurnOk(cfg.N(), q.turn) && NextTcp(cfg, q, code, r) && Calm(r, t)
    ensures NextTcp(cfg, q, code, t)
  {
  }

  lemma CalmNextTcp(cfg: Config, q: Query, code: Code, r: Query, t: Query)
    requires TurnOk(cfg.N(), q.turn) && TurnOk(cfg.N(), r.turn) && Calm(q, r) && NextTcp(cfg, r, code, t)
    ensures NextTcp(cfg, q, code, t)
  {
  }

  lemma MoveOnNext(cfg: Config, st: State, i: nat, code: Code, env: Env)
    requires Core(cfg, st) && i < |st.queries| && TcpStatus(st.queries[i].status)
    requires !code.CodeVoid? && !code.CodeOk?
    ensures NextTcp(cfg, st.queries[i], code, MoveOn(cfg, st, i, code, env).queries[i])
  {
    hide Consistent, MoveOn;
    MoveOnIs(cfg, st, i, code, env);
    MoveOnCore(cfg, st, i, code, env);
    QueryFacts(cfg, MoveOn(cfg, st, i, code, env), i);
  }

  lemma {:induction false} MoveAllNext(cfg: Config, st: State, list: seq<nat>, env: Env)
    requires Core(cfg, st) && Distinct(list)
    requires forall k | 0 <= k < |list| :: list[k] < |st.queries| && TcpStatus(st.queries[list[k]].status)
    ensures var r := MoveAllOn(cfg, st, list, env);
            forall k | 0 <= k < |list| :: NextTcp(cfg, st.queries[list[k]], CodeConnect, r.queries[list[k]])
    decreases |list|
  {
    hide Consistent, MoveOn, NextTcp, Calm;
    if list != [] {
      var i, st1 := list[0], MoveOn(cfg, st, list[0], CodeConnect, env);
      MoveOnNext(cfg, st, i, CodeConnect, env);
      MoveOnCore(cfg, st, i, CodeConnect, env);
      OthersLower(cfg, st, st1, i);
      MoveAllNext(cfg, st1, list[1..], env);
      MoveAllOthers(cfg, st1, list[1..], env);
      var r := MoveAllOn(cfg, st1, list[1..], env);
      assert i !in list[1..];
      NextTcpCalm(cfg, st.queries[i], CodeConnect, st1.queries[i], r.queries[i]);
      forall k | 0 < k < |list|
        ensures NextTcp(cfg, st.queries[list[k]], CodeConnect, r.queries[list[k]])
      {
        assert list[k] == list[1..][k - 1];
        CalmNextTcp(cfg, st.queries[list[k]], CodeConnect, st1.queries[list[k]], r.queries[list[k]]);
      }
    }
  }

  lemma BrokenNext(cfg: Config, st: State, s: nat, env: Env)
    requires Inv(cfg, st) && s < cfg.N()
    ensures !Broken(cfg, st, s, env).Idle?
    ensures Broken(cfg, st, s, env).Progress? ==>
              var b := Broken(cfg, st, s, env).state;
              && |b.queries| == |st.queries|
              && forall j: nat | j < |st.queries| ::
                   if Uses(st, s, j) then NextTcp(cfg, st.queries[j], CodeConnect, b.queries[j])
                   else Calm(st.queries[j], b.queries[j])
  {
    if Broken(cfg, st, s, env).Progress? {
      BrokenMoves(cfg, st, s, env);
    }
  }

  lemma BrokenMoves(cfg: Config, st: State, s: nat, env: Env)
    requires Inv(cfg, st) && s < cfg.N() && Broken(cfg, st, s, env).Progress?
    ensures var b := Broken(cfg, st, s, env).state;
            && |b.queries| == |st.queries|
            && forall j: nat | j < |st.queries| ::
                 if Uses(st, s, j) then NextTcp(cfg, st.queries[j], CodeConnect, b.queries[j])
                 else Calm(st.queries[j], b.queries[j])
  {
    hide Consistent, MoveAllOn, ConnectNextFails, NextTcp;
    SetOpenCore(cfg, st, s, false);
    var list := Affected(st.queries, s, |st.queries|);
    MoveAllNext(cfg, SetOpen(st, s, false), list, env);
    MoveAllOthers(cfg, SetOpen(st, s, false), list, env);
    var b := Broken(cfg, st, s, env).state;
    forall j: nat | j < |st.queries| && Uses(st, s, j)
      ensures NextTcp(cfg, st.queries[j], CodeConnect, b.queries[j])
    {
      var k :| 0 <= k < |list| && list[k] == j;
    }
  }

  // ----------------------------------------------------------------- events

  lemma FirstInIs(qs: seq<Query>, s: Status)
    ensures var i := FirstIn(qs, s, 0);
            && (i == |qs| ==> forall k | 0 <= k < |qs| :: qs[k].status != s)
            && (i < |qs| ==> qs[i].status == s && forall k | 0 <= k < i :: qs[k].status != s)
  {
  }

  lemma UdpWritableDrawn(cfg: Config, a: State, x: Stimulus, b: State)
    requires Inv(cfg, a) && StepTo(cfg, a, x, b) && x.event.UdpWritable?
    ensures Drawn(cfg, a, x, b)
  {
    hide Consistent, Done, Want, Resend;
    var i := FirstIn(a.queries, UdpSend, 0);
    FirstInIs(a.queries, UdpSend);
    if i < |a.queries| {
      QueryFacts(cfg, a, i);
      DoneShape(cfg, a, i);
      WantShape(cfg, Done(cfg, a, i), i, UdpRecv);
      ResendIs(cfg, a, i, CodeSend);
    }
  }

  lemma TimeoutDrawn(cfg: Config, a: State, x: Stimulus, b: State)
    requires Inv(cfg, a) && StepTo(cfg, a, x, b)
    requires x.event.UdpTimeout? || x.event.HeadTimeout? || x.event.BodyTimeout?
    ensures Drawn(cfg, a, x, b)
  {
    hide Consistent, Resend, MoveOn, MoveOnFails, NextTcp;
    var i := x.event.index;
    QueryFacts(cfg, a, i);
    if x.event.UdpTimeout? {
      ResendIs(cfg, a, i, CodeTimeout);
    } else {
      MoveOnNext(cfg, a, i, CodeTimeout, x.env);
      MoveOnCore(cfg, a, i, CodeTimeout, x.env);
    }
  }

  lemma UdpReadableDrawn(cfg: Config, a: State, x: Stimulus, b: State)
    requires Inv(cfg, a) && StepTo(cfg, a, x, b) && x.event.UdpReadable?
    ensures Drawn(cfg, a, x, b)
  {
    hide Consistent, OnUdpReadable, Taken, Addressed;
    var d := x.event.datagram;
    if a.queries == [] {
      NobodyAddressed(cfg, a, x.event.family, d, x.env);
    } else {
      UdpDelivers(cfg, a, x.event.family, d, x.env, 0);
    }
    forall j: nat | j < |a.queries|
      ensures if Concerned(cfg, a, x.event, j) then Becomes(cfg, a, x, a.queries[j], b.queries[j])
              else Calm(a.queries[j], b.queries[j])
    {
      UdpDelivers(cfg, a, x.event.family, d, x.env, j);
      if Addressed(a, d, j) {
        AddressedDatagram(a, d, j);
      }
    }
  }

  lemma NobodyAddressed(cfg: Config, st: State, family: Family, d: Datagram, env: Env)
    requires Shape(cfg, st) && st.queries == []
    ensures OnUdpReadable(cfg, st, family, d, env).Idle?
  {
  }

  lemma AddressedDatagram(st: State, d: Datagram, j: nat)
    requires Addressed(st, d, j)
    ensures d.Datagram?
  {
  }

  lemma ConnectResultDrawn(cfg: Config, a: State, x: Stimulus, b: State)
    requires Inv(cfg, a) && StepTo(cfg, a, x, b) && x.event.ConnectResult?
    ensures Drawn(cfg, a, x, b)
  {
    hide Consistent, Broken, ConnectToWrite, ScanHolds, NextTcp;
    if x.event.connected {
      ConnectToWriteCore(cfg, a, x.event.server, 0);
      forall j: nat | j < |a.queries|
        ensures a.queries[j].status.TcpConnect? ==> a.queries[j].timer.NoTimer?
      {
        TimerFacts(cfg, a, j);
      }
    } else {
      BrokenNext(cfg, a, x.event.server, x.env);
    }
  }

  lemma TcpWritableDrawn(cfg: Config, a: State, x: Stimulus, b: State)
    requires Inv(cfg, a) && StepTo(cfg, a, x, b) && x.event.TcpWritable?
    ensures Drawn(cfg, a, x, b)
  {
    hide Consistent, Done, Want, Broken, NextTcp;
    var i := FirstIn(a.queries, TcpSend, 0);
    FirstInIs(a.queries, TcpSend);
    if x.event.sent.SendFail? {
      BrokenNext(cfg, a, x.event.server, x.env);
    } else if i < |a.queries| {
      DoneShape(cfg, a, i);
      WantShape(cfg, Done(cfg, a, i), i, TcpHead);
    }
  }

  lemma FinishDrawn(cfg: Config, a: State, x: Stimulus, b: State)
    requires Inv(cfg, a) && StepTo(cfg, a, x, b) && x.event.FinishNow?
    ensures Drawn(cfg, a, x, b)
  {
    hide Consistent;
    QueryFacts(cfg, a, x.event.index);
  }

  lemma NamedIs(st: State, id: nat)
    ensures var i := FirstWithId(st.queries, id, 0);
            && (i == |st.queries| <==> forall k | 0 <= k < |st.queries| :: st.queries[k].id != id)
            && forall j: nat :: FirstNamed(st, id, j) <==> j == i < |st.queries|
  {
    var i := FirstWithId(st.queries, id, 0);
    forall j: nat | FirstNamed(st, id, j)
      ensures j == i
    {
      assert !(j < i) && !(i < j);
    }
  }

  lemma BodyIs(st: State, s: nat)
    ensures var i := FirstBody(st.queries, s, 0);
            && (i == |st.queries| <==> NoBody(st, s))
            && forall j: nat :: ReadsBody(st, s, j) <==> j == i < |st.queries|
  {
    var i := FirstBody(st.queries, s, 0);
    forall j: nat | ReadsBody(st, s, j)
      ensures j == i
    {
      assert !(j < i) && !(i < j);
    }
  }

  lemma UnusableIs(cfg: Config, st: State, s: nat, header: Header)
    ensures Unusable(cfg, st, s, header) <==> ForNobody(cfg, st, s, header)
  {
    hide FirstNamed;
    NamedIs(st, header.id);
  }

  lemma HeadRead(cfg: Config, a: State, x: Stimulus, b: State)
    requires Inv(cfg, a) && StepTo(cfg, a, x, b) && x.event.TcpReadable? && x.event.received.Bytes?
    requires NoBody(a, x.event.server)
    ensures Drawn(cfg, a, x, b)
  {
    hide Consistent, Broken, HeadAnswered, HeadFails, NextTcp, Unusable, ForNobody, FirstNamed, ReadsBody, NoBody;
    var s, header := x.event.server, x.event.header;
    BodyIs(a, s);
    NamedIs(a, header.id);
    UnusableIs(cfg, a, s, header);
    var have := a.servers[s].headLen;
    if 0 <= have < TCP_HEADER && have + x.event.received.rd >= TCP_HEADER {
      FullHeadDrawn(cfg, a, x, b);
    }
  }

  lemma FullHeadDrawn(cfg: Config, a: State, x: Stimulus, b: State)
    requires Inv(cfg, a) && StepTo(cfg, a, x, b) && x.event.TcpReadable? && x.event.received.Bytes?
    requires NoBody(a, x.event.server) && 0 <= a.servers[x.event.server].headLen < TCP_HEADER
    requires a.servers[x.event.server].headLen + x.event.received.rd >= TCP_HEADER
    ensures Drawn(cfg, a, x, b)
  {
    hide Consistent, Broken, HeadAnswered, HeadFails, NextTcp, ForNobody, FirstNamed, ReadsBody, NoBody, HeadTaken;
    var s, header := x.event.server, x.event.header;
    var st := SetHeadLen(a, s, TCP_HEADER);
    BodyIs(a, s);
    NamedIs(a, header.id);
    UnusableIs(cfg, a, s, header);
    HeadLenInv(cfg, a, s, TCP_HEADER);
    if Unusable(cfg, a, s, header) {
      BrokenNext(cfg, st, s, x.env);
      assert forall j: nat :: Uses(st, s, j) <==> Uses(a, s, j);
    } else {
      var i := FirstWithId(a.queries, header.id, 0);
      HeadDelivers(cfg, st, i, header, x.env);
      HeadOthers(cfg, st, i, header, x.env);
    }
  }

  lemma HeadOthers(cfg: Config, st: State, i: nat, header: Header, env: Env)
    requires Shape(cfg, st) && i < |st.queries|
    ensures var r := HeadAnswered(cfg, st, i, header, env);
            |r.queries| == |st.queries| && forall j | 0 <= j < |st.queries| && j != i :: r.queries[j] == st.queries[j]
  {
    hide Done, Want, NextJoin;
    DoneShape(cfg, st, i);
    var st1 := Done(cfg, st, i);
    var q := st1.queries[i];
    var q1 := q.(answer := Answer(header.msgLen, MSG_HEADER), rcode := header.rcode, tc := header.flags & MASK_TC != 0);
    WantShape(cfg, Set(st1, i, q1), i, TcpBody);
    var q2 := q.(code := CheckAnswerFlags(header.flags, st.queries[i].options.needRa));
    WantShape(cfg, Set(st1, i, Restarted(cfg, q2).(tries := q2.tries + 1)), i, UdpSend);
  }

  lemma BodyRead(cfg: Config, a: State, x: Stimulus, b: State)
    requires Inv(cfg, a) && StepTo(cfg, a, x, b) && x.event.TcpReadable? && x.event.received.Bytes?
    requires !NoBody(a, x.event.server)
    ensures Drawn(cfg, a, x, b)
  {
    hide Consistent, Done, QueryDone, ResultFails, ReadsBody, NoBody, ByResponse, Unjoinable;
    var s := x.event.server;
    BodyIs(a, s);
    var i := FirstBody(a.queries, s, 0);
    QueryFacts(cfg, a, i);
    if x.event.received.rd == a.queries[i].answer.size - a.queries[i].answer.len {
      BodyDelivers(cfg, a, i, x.event.received.rd, x.env);
    }
  }

  lemma ReadLost(cfg: Config, a: State, x: Stimulus, b: State)
    requires Inv(cfg, a) && StepTo(cfg, a, x, b) && x.event.TcpReadable? && !x.event.received.Bytes?
    ensures Drawn(cfg, a, x, b)
  {
    hide Consistent, Broken, NextTcp, ReadsBody, NoBody;
    BodyIs(a, x.event.server);
    BrokenNext(cfg, a, x.event.server, x.env);
  }

  /** Every event but a submit and a delete, in every state of every run: the queries it is about
      become what the diagram says, and all others stay as they are, but that a query that waits
      for a connection may come to wait to send on it. */
  lemma StepDrawn(cfg: Config, a: State, x: Stimulus, b: State)
    requires Inv(cfg, a) && StepTo(cfg, a, x, b) && !x.event.Submit? && !x.event.Delete?
    ensures Drawn(cfg, a, x, b)
  {
    hide Inv, StepTo, Drawn, NoBody;
    match x.event
    case UdpWritable(_) => UdpWritableDrawn(cfg, a, x, b);
    case UdpReadable(_, _) => UdpReadableDrawn(cfg, a, x, b);
    case UdpTimeout(_) => TimeoutDrawn(cfg, a, x, b);
    case HeadTimeout(_) => TimeoutDrawn(cfg, a, x, b);
    case BodyTimeout(_) => TimeoutDrawn(cfg, a, x, b);
    case ConnectResult(_, _) => ConnectResultDrawn(cfg, a, x, b);
    case TcpWritable(_, _) => TcpWritableDrawn(cfg, a, x, b);
    case TcpReadable(s, received, _) =>
      if !received.Bytes? {
        ReadLost(cfg, a, x, b);
      } else if NoBody(a, s) {
        HeadRead(cfg, a, x, b);
      } else {
        BodyRead(cfg, a, x, b);
      }
    case FinishNow(_) => FinishDrawn(cfg, a, x, b);
  }
}
