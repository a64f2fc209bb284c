/** What stays with a query from its submit on: its id and its options, at whatever place the
    deletions of others put it. Answers are matched by that id. */
module FsmIdentity {
  import opened FsmInvariant
  import opened FsmModel
  import opened FsmRuns
  import opened FsmSteps
  import opened FsmUnfinished
  import opened Limits
  import opened Rotation
  import opened RuliList

  /** The same queries, at the same places, and the same numbers for the next one. */
  ghost predicate Same(a: State, b: State) {
    && |b.queries| == |a.queries| && b.nextId == a.nextId && b.nextServer == a.nextServer
    && forall j | 0 <= j < |a.queries| :: b.queries[j].id == a.queries[j].id && b.queries[j].options == a.queries[j].options
  }

  lemma SameTwice(a: State, b: State, c: State)
    requires Same(a, b) && Same(b, c)
    ensures Same(a, c)
  {
  }

  lemma StatusSame(cfg: Config, st: State, i: nat, s: Status)
    requires Shape(cfg, st) && i < |st.queries|
    ensures Same(st, Done(cfg, st, i)) && Same(st, Want(cfg, st, i, s)) && Same(st, Leave(cfg, st, i))
    ensures Shape(cfg, Done(cfg, st, i)) && Shape(cfg, Want(cfg, st, i, s))
  {
    DoneShape(cfg, st, i);
    WantShape(cfg, st, i, s);
  }

  lemma {:induction false} ConnectToWriteSame(cfg: Config, st: State, s: nat, j: nat)
    requires Shape(cfg, st) && s < cfg.N()
    ensures Same(st, ConnectToWrite(cfg, st, s, j))
    decreases |st.queries| - j
  {
    hide Same, Done, Want, Leave;
    SameSelf(st);
    if j < |st.queries| {
      if st.queries[j].status.TcpConnect? && st.queries[j].turn.curr == s {
        StatusSame(cfg, st, j, Void);
        var st1 := Done(cfg, st, j);
        StatusSame(cfg, st1, j, TcpSend);
        var st2 := Want(cfg, st1, j, TcpSend);
        ConnectToWriteSame(cfg, st2, s, j + 1);
        SameTwice(st, st1, st2);
        SameTwice(st, st2, ConnectToWrite(cfg, st2, s, j + 1));
      } else {
        ConnectToWriteSame(cfg, st, s, j + 1);
      }
    }
  }

  lemma SameSelf(a: State)
    ensures Same(a, a)
  {
  }

  lemma AttemptSame(cfg: Config, st: State, i: nat, result: Connect)
    requires Shape(cfg, st) && i < |st.queries|
    ensures Same(st, Attempt(cfg, st, i, result).0)
  {
    hide Done, Want, Leave, ConnectToWrite;
    var s := st.queries[i].turn.curr;
    var st1 := SetOpen(st, s, true);
    StatusSame(cfg, st1, i, TcpSend);
    StatusSame(cfg, st1, i, TcpConnect);
    ConnectToWriteSame(cfg, Want(cfg, st1, i, TcpSend), s, 0);
  }

  lemma {:induction false} WantConnectSame(cfg: Config, st: State, i: nat, env: Env, k: nat)
    requires Shape(cfg, st) && i < |st.queries|
    ensures Same(st, WantConnect(cfg, st, i, env, k))
    decreases SwitchesLeft(cfg.N(), st.queries[i].turn)
  {
    hide Same, Done, Want, Leave, Attempt;
    StatusSame(cfg, st, i, TcpSend);
    if !st.servers[st.queries[i].turn.curr].open {
      AttemptSame(cfg, st, i, env.connect(i, k));
      var (st1, again) := Attempt(cfg, st, i, env.connect(i, k));
      if again {
        WantConnectSame(cfg, st1, i, env, k + 1);
        SameTwice(st, st1, WantConnect(cfg, st1, i, env, k + 1));
      }
    }
  }

  lemma MoveOnSame(cfg: Config, st: State, i: nat, code: Code, env: Env)
    requires Shape(cfg, st) && i < |st.queries|
    ensures Same(st, MoveOn(cfg, st, i, code, env))
  {
    hide Done, Want, Leave, WantConnect;
    StatusSame(cfg, st, i, Void);
    var (st1, ok) := SwitchElseFinish(cfg, Leave(cfg, st, i), i, code);
    if ok {
      WantConnectSame(cfg, st1, i, env, 0);
    }
  }

  lemma {:induction false} MoveAllOnSame(cfg: Config, st: State, list: seq<nat>, env: Env)
    requires Shape(cfg, st) && forall k | 0 <= k < |list| :: list[k] < |st.queries|
    ensures Same(st, MoveAllOn(cfg, st, list, env))
    decreases |list|
  {
    hide Same, MoveOn;
    SameSelf(st);
    if list != [] {
      var st1 := MoveOn(cfg, st, list[0], CodeConnect, env);
      MoveOnSame(cfg, st, list[0], CodeConnect, env);
      MoveAllOnSame(cfg, st1, list[1..], env);
      SameTwice(st, st1, MoveAllOn(cfg, st1, list[1..], env));
    }
  }

  lemma BrokenSame(cfg: Config, st: State, s: nat, env: Env)
    requires Shape(cfg, st) && s < cfg.N()
    ensures Broken(cfg, st, s, env).Progress? ==> Same(st, Broken(cfg, st, s, env).state)
  {
    hide MoveAllOn, ConnectNextFails;
    MoveAllOnSame(cfg, SetOpen(st, s, false), Affected(st.queries, s, |st.queries|), env);
  }

  /** The result of query `i`, whatever was stored for it. */
  lemma ResultSame(cfg: Config, st: State, i: nat, q: Query, env: Env)
    requires Shape(cfg, st) && i < |st.queries|
    requires q.id == st.queries[i].id && q.options == st.queries[i].options && TurnOk(cfg.N(), q.turn)
    ensures Shape(cfg, Set(st, i, q)) && Same(st, QueryDone(cfg, Set(st, i, q), i, env))
  {
    hide Want, NextJoin;
    var st1 := Set(st, i, q);
    var q1 := if q.code.CodeOk? && q.tc then q.(code := CodeAnswerTrunc) else q;
    StatusSame(cfg, Set(st1, i, Restarted(cfg, q1).(tries := q1.tries + 1)), i, UdpSend);
  }

  lemma ResendSame(cfg: Config, st: State, i: nat, code: Code)
    requires Shape(cfg, st) && i < |st.queries|
    ensures Same(st, Resend(cfg, st, i, code))
  {
    hide Done, Want, Leave;
    StatusSame(cfg, st, i, Void);
    var (st1, ok) := SwitchElseFinish(cfg, Done(cfg, st, i), i, code);
    if ok {
      StatusSame(cfg, st1, i, UdpSend);
    }
  }

  lemma SentSame(cfg: Config, st: State, i: nat, s: Status)
    requires Shape(cfg, st) && i < |st.queries|
    ensures Shape(cfg, Done(cfg, st, i)) && Same(st, Want(cfg, Done(cfg, st, i), i, s))
  {
    hide Want, Leave;
    StatusSame(cfg, st, i, Void);
    DoneShape(cfg, st, i);
    StatusSame(cfg, Done(cfg, st, i), i, s);
  }

  lemma UdpAnsweredSame(cfg: Config, st: State, i: nat, d: Datagram, env: Env)
    requires Shape(cfg, st) && i < |st.queries| && d.Datagram?
    ensures Same(st, UdpAnswered(cfg, st, i, d, env))
  {
    hide Done, Want, Leave, QueryDone, WantConnect;
    DoneShape(cfg, st, i);
    var st1 := Done(cfg, st, i);
    var q := st1.queries[i];
    ResultSame(cfg, st1, i, q.(code := CheckAnswerFlags(d.flags, st.queries[i].options.needRa)), env);
    ResultSame(cfg, st1, i, q.(answer := Answer(d.size, d.size), code := CodeOk, rcode := d.rcode, tc := false), env);
    WantConnectSame(cfg, st1, i, env, 0);
  }

  lemma HeadAnsweredSame(cfg: Config, st: State, i: nat, header: Header, env: Env)
    requires Shape(cfg, st) && i < |st.queries|
    ensures Same(st, HeadAnswered(cfg, st, i, header, env))
  {
    hide Done, Want, Leave, QueryDone;
    DoneShape(cfg, st, i);
    var st1 := Done(cfg, st, i);
    ResultSame(cfg, st1, i, st1.queries[i].(code := CheckAnswerFlags(header.flags, st.queries[i].options.needRa)), env);
    var q := st1.queries[i].(answer := Answer(header.msgLen, MSG_HEADER), rcode := header.rcode,
                             tc := header.flags & MASK_TC != 0);
    StatusSame(cfg, Set(st1, i, q), i, TcpBody);
  }

  lemma HeadSame(cfg: Config, st: State, s: nat, received: RecvResult, header: Header, env: Env)
    requires Shape(cfg, st) && s < cfg.N()
    ensures var o := OnHead(cfg, st, s, received, header, env); o.Progress? ==> Same(st, o.state)
  {
    hide Broken, HeadAnswered, HeadFails;
    BrokenSame(cfg, st, s, env);
    if received.Bytes? {
      var st1 := SetHeadLen(st, s, st.servers[s].headLen + received.rd);
      BrokenSame(cfg, st1, s, env);
      var i := FirstWithId(st1.queries, header.id, 0);
      if i < |st1.queries| {
        HeadAnsweredSame(cfg, st1, i, header, env);
      }
    }
  }

  lemma BodySame(cfg: Config, st: State, i: nat, received: RecvResult, env: Env)
    requires Shape(cfg, st) && i < |st.queries| && st.queries[i].status.TcpBody? && st.queries[i].answer.Answer?
    ensures var o := OnBody(cfg, st, i, received, env); o.Progress? ==> Same(st, o.state)
  {
    hide Broken, Done, QueryDone, ResultFails;
    BrokenSame(cfg, st, st.queries[i].turn.curr, env);
    if received.Bytes? {
      var q := st.queries[i];
      var st1 := Set(st, i, q.(answer := Answer(q.answer.size, q.answer.len + received.rd)));
      DoneShape(cfg, st1, i);
      var st2 := Done(cfg, st1, i);
      ResultSame(cfg, st2, i, st2.queries[i].(code := CodeOk), env);
    }
  }

  /** No event but a submit and a delete changes which queries there are, and where. */
  lemma StepSame(cfg: Config, a: State, x: Stimulus, b: State)
    requires StepTo(cfg, a, x, b) && !x.event.Submit? && !x.event.Delete?
    ensures Same(a, b)
  {
    hide Done, Want, QueryDone, Resend, MoveOn, MoveOnFails, OnHead, OnBody, Broken, UdpAnswered, UdpAnswerFails,
         ConnectToWrite, ScanHolds;
    match x.event
    case UdpWritable(sent) =>
      var i := FirstIn(a.queries, UdpSend, 0);
      if i < |a.queries| {
        ResendSame(cfg, a, i, CodeSend);
        SentSame(cfg, a, i, UdpRecv);
      }
    case UdpReadable(family, d) =>
      if b != a {
        UdpAnsweredSame(cfg, a, FirstWithId(a.queries, d.id, 0), d, x.env);
      }
    case UdpTimeout(i) => ResendSame(cfg, a, i, CodeTimeout);
    case HeadTimeout(i) => MoveOnSame(cfg, a, i, CodeTimeout, x.env);
    case BodyTimeout(i) => MoveOnSame(cfg, a, i, CodeTimeout, x.env);
    case ConnectResult(s, connected) =>
      BrokenSame(cfg, a, s, x.env);
      ConnectToWriteSame(cfg, a, s, 0);
    case TcpWritable(s, sent) =>
      BrokenSame(cfg, a, s, x.env);
      var i := FirstIn(a.queries, TcpSend, 0);
      if i < |a.queries| {
        SentSame(cfg, a, i, TcpHead);
      }
    case TcpReadable(s, received, header) =>
      HeadSame(cfg, a, s, received, header, x.env);
      var i := FirstBody(a.queries, s, 0);
      if i < |a.queries| && a.queries[i].answer.Answer? {
        BodySame(cfg, a, i, received, x.env);
      }
    case FinishNow(i) => ResultSame(cfg, a, i, a.queries[i].(finish := false), x.env);
  }

  // ------------------------------------------------------------------ runs

  /** Ids and first servers are given out in turn. */
  lemma {:induction false} NextNumbers(cfg: Config, sts: seq<State>, xs: seq<Stimulus>, k: nat)
    requires Run(cfg, sts, xs) && k <= |xs|
    ensures sts[k].nextId == Submits(xs[..k]) % 0x1_0000 && sts[k].nextServer == Submits(xs[..k]) % cfg.N()
  {
    hide Inv, Same, Want, Done, StepTo, Following;
    if k > 0 {
      NextNumbers(cfg, sts, xs, k - 1);
      assert StepAt(cfg, sts, xs, k - 1);
      assert xs[..k][..k - 1] == xs[..k - 1];
      NextAfter(cfg, sts[k - 1], xs[k - 1], sts[k]);
      NextCounted(Submits(xs[..k - 1]), cfg.N(), sts[k - 1].nextServer);
      NextMod(Submits(xs[..k - 1]), 0x1_0000);
    }
  }

  lemma NextCounted(m: nat, n: nat, i: nat)
    requires n > 0 && i == m % n
    ensures i < n && Following(n, i) == (m + 1) % n
  {
    NextMod(m, n);
  }

  lemma NextMod(m: nat, n: nat)
    requires n > 0
    ensures (m + 1) % n == (m % n + 1) % n
  {
    var q := (m % n + 1) / n;
    assert m + 1 == n * (m / n + q) + (m % n + 1) % n;
    ModIs(m + 1, n, m / n + q, (m % n + 1) % n);
  }

  lemma ModIs(m: nat, n: nat, q: nat, r: nat)
    requires 0 <= r < n && m == n * q + r
    ensures m % n == r
  {
    var d: int := m / n - q;
    assert n * d == r - m % n;
    assert d >= 1 ==> n * d >= n;
    assert d <= -1 ==> n * d <= 0 - n;
  }

  lemma NextAfter(cfg: Config, a: State, x: Stimulus, b: State)
    requires StepTo(cfg, a, x, b)
    ensures if x.event.Submit? then b.nextId == (a.nextId + 1) % 0x1_0000 && b.nextServer == Following(cfg.N(), a.nextServer)
            else b.nextId == a.nextId && b.nextServer == a.nextServer
  {
    hide Want;
    if x.event.Submit? {
      var st1 := a.(queries := a.queries + [NewQuery(cfg, a, x.event.options).(tries := 1)],
                    nextServer := Following(cfg.N(), a.nextServer), nextId := (a.nextId + 1) % 0x1_0000);
      if x.event.starts {
        WantShape(cfg, st1, |a.queries|, UdpSend);
      }
    } else if !x.event.Delete? {
      StepSame(cfg, a, x, b);
    }
  }

  /** The query of a submit comes last, with the number of submits before it as its id, in 16
      bits, and as its first server, modulo the servers; it is sent over UDP, with all its
      retries and suffixes. */
  lemma SubmitIs(cfg: Config, sts: seq<State>, xs: seq<Stimulus>, m: nat)
    requires Run(cfg, sts, xs) && m < |xs| && xs[m].event.Submit?
    ensures var n, e := Submits(xs[..m]), xs[m].event;
            && |sts[m + 1].queries| == |sts[m].queries| + 1 && cfg.N() > 0
            && sts[m + 1].queries[|sts[m].queries|]
               == Query(n % 0x1_0000, if e.starts then UdpSend else Void, Turn(n % cfg.N(), n % cfg.N(), cfg.retry), -1,
                        CodeVoid, NoTimer, false, 0, if e.starts then 1 else 0, NoAnswer, 0, false, e.options)
  {
    hide Inv, Want;
    NextNumbers(cfg, sts, xs, m);
    assert StepAt(cfg, sts, xs, m);
    var a := sts[m];
    var st1 := a.(queries := a.queries + [NewQuery(cfg, a, xs[m].event.options).(tries := 1)],
                  nextServer := Following(cfg.N(), a.nextServer), nextId := (a.nextId + 1) % 0x1_0000);
    if xs[m].event.starts {
      WantShape(cfg, st1, |a.queries|, UdpSend);
    }
  }

  lemma IdentityStep(cfg: Config, a: State, x: Stimulus, b: State, i: nat)
    requires StepTo(cfg, a, x, b) && i < |a.queries|
    ensures var p := NextPlace(a, x.event, i);
            p >= 0 ==> p < |b.queries| && b.queries[p].id == a.queries[i].id && b.queries[p].options == a.queries[i].options
  {
    hide Want, Done;
    if x.event.Submit? {
      var st1 := a.(queries := a.queries + [NewQuery(cfg, a, x.event.options).(tries := 1)],
                    nextServer := Following(cfg.N(), a.nextServer), nextId := (a.nextId + 1) % 0x1_0000);
      if x.event.starts {
        WantShape(cfg, st1, |a.queries|, UdpSend);
      }
    } else if x.event.Delete? {
      DroppedAt(a.queries, x.event.index);
    } else {
      StepSame(cfg, a, x, b);
    }
  }

  /** In every run a query keeps its id and its options until it is deleted. */
  lemma {:induction false} RunKeepsIdentity(cfg: Config, sts: seq<State>, xs: seq<Stimulus>, k: nat, l: nat, i: nat)
    requires Run(cfg, sts, xs) && k <= l < |sts| && i < |sts[k].queries|
    ensures var p := Place(sts, xs, k, l, i);
            p >= 0 ==> p < |sts[l].queries| && sts[l].queries[p].id == sts[k].queries[i].id
                       && sts[l].queries[p].options == sts[k].queries[i].options
    decreases l - k
  {
    hide StepTo;
    if l > k {
      RunKeepsIdentity(cfg, sts, xs, k, l - 1, i);
      assert StepAt(cfg, sts, xs, l - 1);
      var p := Place(sts, xs, k, l - 1, i);
      if p >= 0 {
        IdentityStep(cfg, sts[l - 1], xs[l - 1], sts[l], p);
      }
    }
  }

  /** Two queries that are still there share an id exactly when a multiple of 65536 submits lies
      between them. */
  lemma IdsCollideExactly(cfg: Config, sts: seq<State>, xs: seq<Stimulus>, m: nat, n: nat, l: nat)
    requires Run(cfg, sts, xs) && m < n < l < |sts| && xs[m].event.Submit? && xs[n].event.Submit?
    ensures var p, r := Place(sts, xs, m + 1, l, |sts[m].queries|), Place(sts, xs, n + 1, l, |sts[n].queries|);
            p >= 0 && r >= 0 ==>
              && p < |sts[l].queries| && r < |sts[l].queries|
              && (sts[l].queries[p].id == sts[l].queries[r].id
                  <==> (Submits(xs[..n]) - Submits(xs[..m])) % 0x1_0000 == 0)
  {
    hide StepTo, StepAt, Place, Submits;
    SubmitIs(cfg, sts, xs, m);
    SubmitIs(cfg, sts, xs, n);
    RunKeepsIdentity(cfg, sts, xs, m + 1, l, |sts[m].queries|);
    RunKeepsIdentity(cfg, sts, xs, n + 1, l, |sts[n].queries|);
    SameId(Submits(xs[..m]), Submits(xs[..n]));
  }

  lemma SameId(a: nat, b: nat)
    ensures a % 0x1_0000 == b % 0x1_0000 <==> (b - a) % 0x1_0000 == 0
  {
  }
}
