/** How many queries receive a body on one connection: one at most, until a header names a
    query that waits on another connection. */
module FsmBodies {
  import opened Families
  import opened FsmEnds
  import opened FsmInvariant
  import opened FsmModel
  import opened FsmReaders
  import opened FsmRuns
  import opened FsmSteps
  import opened Limits
  import opened Rotation
  import opened RuliList

  /** The event completes a header, and query `i` goes on to receive the body it announces, on
      its own connection. */
  ghost predicate Takes(cfg: Config, a: State, e: Event, i: nat) {
    && i < |a.queries| && e.TcpReadable? && Completes(a, e, e.server)
    && e.header.msgLen >= MSG_LOW && i == FirstWithId(a.queries, e.header.id, 0)
    && var q := a.queries[i];
       && q.status.TcpHead? && q.answer.NoAnswer?
       && CheckAnswerFlags(e.header.flags, q.options.needRa).CodeOk?
       && (q.turn.curr == e.server
           || (!cfg.repaired && q.turn.curr < |a.servers| && a.servers[q.turn.curr].headLen == TCP_HEADER))
  }

  /** It waits on another connection than the header came from, where query `k` receives a body. */
  ghost predicate Collides(cfg: Config, a: State, e: Event, i: nat, k: nat) {
    && Takes(cfg, a, e, i) && k < |a.queries| && k != i
    && a.queries[i].turn.curr != e.server
    && a.queries[k].status.TcpBody? && a.queries[k].turn.curr == a.queries[i].turn.curr
  }

  /** Who receives a body after the event. */
  ghost predicate BodiesAfter(cfg: Config, a: State, e: Event, b: State) {
    && |b.queries| == |a.queries|
    && (forall j | 0 <= j < |a.queries| && b.queries[j].status.TcpBody? ::
          (a.queries[j].status.TcpBody? || Takes(cfg, a, e, j)) && b.queries[j].turn.curr == a.queries[j].turn.curr)
    && (forall i: nat | i < |a.queries| && Takes(cfg, a, e, i) ::
          && b.queries[i].status.TcpBody?
          && forall k | 0 <= k < |a.queries| && k != i :: b.queries[k] == a.queries[k])
  }

  lemma HeadAnsweredTakes(cfg: Config, st: State, i: nat, header: Header, env: Env)
    requires Shape(cfg, st) && i < |st.queries|
    ensures var r := HeadAnswered(cfg, st, i, header, env);
            && |r.queries| == |st.queries|
            && (forall k | 0 <= k < |st.queries| && k != i && r.queries[k].status.TcpBody? :: r.queries[k] == st.queries[k])
            && (if CheckAnswerFlags(header.flags, st.queries[i].options.needRa).CodeOk? then
                  && r.queries[i].status.TcpBody? && r.queries[i].turn == st.queries[i].turn
                  && forall k | 0 <= k < |st.queries| && k != i :: r.queries[k] == st.queries[k]
                else !r.queries[i].status.TcpBody?)
  {
    hide Done, Want, QueryDone;
    DoneShape(cfg, st, i);
    var q := st.queries[i].(status := Void, timer := NoTimer);
    var code := CheckAnswerFlags(header.flags, q.options.needRa);
    if !code.CodeOk? {
      ResultQuiet(cfg, st, i, q.(code := code), env);
      ResultFrame(cfg, st, i, q.(code := code), env);
    } else {
      WantShape(cfg, Set(Done(cfg, st, i), i, q.(answer := Answer(header.msgLen, MSG_HEADER), rcode := header.rcode,
                                                  tc := header.flags & MASK_TC != 0)), i, TcpBody);
    }
  }

  lemma FullHeadTakes(cfg: Config, a: State, e: Event, env: Env)
    requires Inv(cfg, a) && e.TcpReadable? && e.server < cfg.N() && Completes(a, e, e.server)
    ensures var o := OnFullHead(cfg, SetHeadLen(a, e.server, TCP_HEADER), e.server, e.header, env);
            o.Progress? ==> BodiesAfter(cfg, a, e, o.state)
  {
    hide Consistent, HeadAnswered, ConnectNext, ConnectNextFails, Completes;
    var s, st := e.server, SetHeadLen(a, e.server, TCP_HEADER);
    ConnectNextQuiet(cfg, st, s, env);
    var i := FirstWithId(a.queries, e.header.id, 0);
    assert FirstWithId(st.queries, e.header.id, 0) == i;
    if i < |a.queries| {
      HeadAnsweredTakes(cfg, st, i, e.header, env);
    }
  }

  lemma TcpReadableTakes(cfg: Config, a: State, e: Event, env: Env)
    requires Inv(cfg, a) && Enabled(cfg, a, e) && e.TcpReadable?
    ensures var o := OnTcpReadable(cfg, a, e.server, e.received, e.header, env);
            o.Progress? ==> BodiesAfter(cfg, a, e, o.state)
  {
    hide Consistent, Done, QueryDone, ConnectNext, ConnectNextFails, OnFullHead, ResultFails, FirstWithId;
    var i := FirstBody(a.queries, e.server, 0);
    ConnectNextQuiet(cfg, a, e.server, env);
    if i < |a.queries| {
      QueryFacts(cfg, a, i);
      if e.received.Bytes? && e.received.rd == a.queries[i].answer.size - a.queries[i].answer.len {
        BodyComplete(cfg, a, i, e.received.rd, env);
        var size := a.queries[i].answer.size;
        var q := a.queries[i].(status := Void, timer := NoTimer, code := CodeOk, answer := Answer(size, size));
        ResultQuiet(cfg, a, i, q, env);
      }
    } else if Completes(a, e, e.server) {
      FullHeadTakes(cfg, a, e, env);
    }
  }

  lemma StepTakes(cfg: Config, a: State, x: Stimulus, b: State)
    requires Inv(cfg, a) && StepTo(cfg, a, x, b) && !x.event.Submit? && !x.event.Delete?
    ensures BodiesAfter(cfg, a, x.event, b)
  {
    hide Consistent, Done, Want, OnTcpWritable, OnTcpReadable, FirstWithId;
    if Elsewhere(x.event) {
      ElsewhereQuiet(cfg, a, x, b);
    } else if x.event.TcpWritable? {
      TcpWritableBodies(cfg, a, x.event.server, x.event.sent, x.env);
    } else {
      ReadIdle(cfg, a, x.event, x.env);
      TcpReadableTakes(cfg, a, x.event, x.env);
    }
  }

  lemma ReadIdle(cfg: Config, a: State, e: Event, env: Env)
    requires Inv(cfg, a) && Enabled(cfg, a, e) && e.TcpReadable?
    ensures OnTcpReadable(cfg, a, e.server, e.received, e.header, env).Idle? ==> e.received.RecvWouldBlock?
  {
    hide Consistent, ResultFails, ConnectNext, ConnectNextFails, HeadAnswered;
  }

  /** Two queries come to receive bodies on one connection exactly when a whole header names a
      query that waits on another connection, without a buffer and with the count of a whole
      header there, its flags are right, and a body is already received on that connection. */
  lemma OneBodyExactly(cfg: Config, a: State, x: Stimulus, b: State)
    requires Inv(cfg, a) && OneBody(a) && StepTo(cfg, a, x, b)
    ensures !OneBody(b) <==> exists i, k :: Collides(cfg, a, x.event, i, k)
    ensures cfg.repaired ==> OneBody(b)
  {
    hide Consistent, Takes, Want;
    if x.event.Submit? {
      SubmitInv(cfg, a, x.event.options, x.event.starts);
      OneBodySubmit(cfg, a, x.event.options, x.event.starts);
      TakesReadable(cfg, a, x.event);
    } else if x.event.Delete? {
      DroppedAt(a.queries, x.event.index);
      TakesReadable(cfg, a, x.event);
    } else {
      StepTakes(cfg, a, x, b);
      if exists i, k :: Collides(cfg, a, x.event, i, k) {
        var i, k :| Collides(cfg, a, x.event, i, k);
        TakesListed(cfg, a, x.event, i);
        var lo, hi := if i < k then i else k, if i < k then k else i;
        assert lo < hi && b.queries[lo].status.TcpBody? && b.queries[hi].status.TcpBody?;
      }
      if !OneBody(b) {
        var i, k :| 0 <= i < k < |b.queries| && b.queries[i].status.TcpBody? && b.queries[k].status.TcpBody?
                    && b.queries[i].turn.curr == b.queries[k].turn.curr;
        OneTakes(cfg, a, x.event, i, k);
        assert Collides(cfg, a, x.event, i, k) || Collides(cfg, a, x.event, k, i);
      }
    }
    StepInv(cfg, a, x, b);
    RepairedOneBody(cfg, b);
  }

  lemma RepairedOneBody(cfg: Config, st: State)
    requires Inv(cfg, st)
    ensures cfg.repaired ==> OneBody(st)
  {
  }

  lemma TakesListed(cfg: Config, a: State, e: Event, i: nat)
    requires Takes(cfg, a, e, i)
    ensures i < |a.queries|
  {
  }

  lemma TakesReadable(cfg: Config, a: State, e: Event)
    requires !e.TcpReadable?
    ensures forall i: nat :: !Takes(cfg, a, e, i)
  {
  }

  /** One query at most takes the header, and a body on the connection it came from excludes it. */
  lemma OneTakes(cfg: Config, a: State, e: Event, i: nat, k: nat)
    requires OneBody(a) && i < |a.queries| && k < |a.queries| && i != k && a.queries[i].turn.curr == a.queries[k].turn.curr
    requires a.queries[i].status.TcpBody? || Takes(cfg, a, e, i)
    requires a.queries[k].status.TcpBody? || Takes(cfg, a, e, k)
    ensures Collides(cfg, a, e, i, k) || Collides(cfg, a, e, k, i)
  {
    assert a.queries[i].status.TcpBody? && a.queries[k].status.TcpBody? ==> false by {
      var lo, hi := if i < k then i else k, if i < k then k else i;
      assert lo < hi;
    }
  }

  lemma OneBodySubmit(cfg: Config, a: State, options: Options, starts: bool)
    requires Inv(cfg, a) && OneBody(a)
    ensures OneBody(OnSubmit(cfg, a, options, starts))
  {
    hide Consistent, Want;
    SubmitInv(cfg, a, options, starts);
    var b := OnSubmit(cfg, a, options, starts);
    if starts {
      SubmitShape(cfg, a, options);
    }
    assert forall j | 0 <= j < |a.queries| :: b.queries[..|a.queries|][j] == b.queries[j];
  }

  /** So a run in which that never happens has one body per connection at most. */
  lemma {:induction false} OneBodyRuns(cfg: Config, sts: seq<State>, xs: seq<Stimulus>, k: nat)
    requires Run(cfg, sts, xs) && k < |sts|
    requires forall m | 0 <= m < k :: m < |xs| && forall i, j :: !Collides(cfg, sts[m], xs[m].event, i, j)
    ensures OneBody(sts[k])
  {
    hide Inv, StepTo, Collides;
    if k > 0 {
      OneBodyRuns(cfg, sts, xs, k - 1);
      RunInv(cfg, sts, xs, k - 1);
      assert StepAt(cfg, sts, xs, k - 1);
      OneBodyExactly(cfg, sts[k - 1], xs[k - 1], sts[k]);
    }
  }
}
