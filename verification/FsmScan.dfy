/** The scan for waiting queries that follows a connection made at once. Its assertion, that
    whoever waits to connect has a descriptor, holds between events but not while the
    queries of a closed connection are moved on one by one. */
module FsmScan {
  import opened Families
  import opened FsmInvariant
  import opened FsmModel
  import opened FsmSteps
  import opened Rotation

  /** The assertion fails while the queries of connection `s` are moved on. */
  predicate ScanFails(cfg: Config, st: State, s: nat, env: Env)
    requires Shape(cfg, st) && s < cfg.N()
  {
    AnyScanFails(cfg, SetOpen(st, s, false), Affected(st.queries, s, |st.queries|), env)
  }

  ghost predicate Connecter(st: State, s: nat, j: nat) {
    j < |st.queries| && st.queries[j].status.TcpConnect? && st.queries[j].turn.curr == s
  }

  /** The servers to be tried next, but for `s` itself, start with one that is not connected. */
  predicate Exposed(cfg: Config, st: State, s: nat, t: Turn)
    requires |st.servers| == cfg.N() && TurnOk(cfg.N(), t)
    decreases SwitchesLeft(cfg.N(), t), 0
  {
    SwitchExact(cfg.N(), t);
    var (next, ok) := Switch(cfg.N(), t);
    ok && ExposedAt(cfg, st, s, next)
  }

  predicate ExposedAt(cfg: Config, st: State, s: nat, t: Turn)
    requires |st.servers| == cfg.N() && TurnOk(cfg.N(), t)
    decreases SwitchesLeft(cfg.N(), t), 1
  {
    if t.curr == s then Exposed(cfg, st, s, t) else !st.servers[t.curr].open
  }

  /** A query of connection `s` is moved on before one that waits to connect to it, to a
      server that is not connected. */
  ghost predicate Endangered(cfg: Config, st: State, s: nat, i: nat, j: nat)
    requires Shape(cfg, st)
  {
    && i < j && Connecter(st, s, j)
    && TcpStatus(st.queries[i].status) && st.queries[i].turn.curr == s
    && Exposed(cfg, st, s, st.queries[i].turn)
  }

  // ------------------------------------------------------- only if

  /** The state `cur` on the way from `st`, with the queries of `list` still to be moved on:
      whoever waits to connect without a descriptor is one of them, and waited for `s`. */
  ghost predicate OnTheWay(st: State, s: nat, cur: State, list: seq<nat>) {
    && |cur.queries| == |st.queries| && |cur.servers| == |st.servers|
    && (forall t | 0 <= t < |st.servers| && t != s && st.servers[t].open :: cur.servers[t].open)
    && (forall q | 0 <= q < |cur.queries| && cur.queries[q].status.TcpConnect? && cur.queries[q].turn.curr < |cur.servers|
                   && !cur.servers[cur.queries[q].turn.curr].open ::
          q in list && cur.queries[q].turn.curr == s && Connecter(st, s, q))
  }

  lemma {:induction false} FailsExposed(cfg: Config, st: State, s: nat, cur: State, list: seq<nat>, i: nat, env: Env, k: nat)
    requires Shape(cfg, st) && Shape(cfg, cur) && OnTheWay(st, s, cur, list)
    requires i < |cur.queries| && cur.queries[i].status.Void? && WantConnectFails(cfg, cur, i, env, k)
    ensures ExposedAt(cfg, st, s, cur.queries[i].turn)
    ensures exists j :: j in list && j != i && Connecter(st, s, j)
    decreases SwitchesLeft(cfg.N(), cur.queries[i].turn)
  {
    hide Want;
    var t := cur.queries[i].turn;
    SwitchExact(cfg.N(), t);
    var connected := SetOpen(cur, t.curr, true);
    if env.connect(i, k).Immediate? {
      WantShape(cfg, connected, i, TcpSend);
      var r := Want(cfg, connected, i, TcpSend);
      var q :| 0 <= q < |r.queries| && r.queries[q].status.TcpConnect? && r.queries[q].turn.curr < |r.servers|
               && !r.servers[r.queries[q].turn.curr].open;
      assert q != i && cur.queries[q] == r.queries[q];
    } else {
      var (next, again) := Attempt(cfg, cur, i, env.connect(i, k));
      FailsExposed(cfg, st, s, next, list, i, env, k + 1);
    }
  }

  lemma LeaveOnTheWay(cfg: Config, st: State, s: nat, cur: State, list: seq<nat>, i: nat, code: Code)
    requires Shape(cfg, cur) && OnTheWay(st, s, cur, list) && i < |cur.queries|
    ensures var r := SwitchElseFinish(cfg, Leave(cfg, cur, i), i, code).0;
            && OnTheWay(st, s, r, list) && r.queries[i].status.Void?
            && r.queries[i].turn == Switch(cfg.N(), cur.queries[i].turn).0
  {
    hide Leave;
    LeaveShape(cfg, cur, i);
  }

  lemma MoveOnTheWay(cfg: Config, st: State, s: nat, cur: State, list: seq<nat>, env: Env)
    requires Core(cfg, cur) && OnTheWay(st, s, cur, list) && list != [] && list[0] < |cur.queries|
    requires TcpStatus(cur.queries[list[0]].status)
    ensures var r := MoveOn(cfg, cur, list[0], CodeConnect, env);
            && Core(cfg, r) && OnTheWay(st, s, r, list[1..])
            && forall j | 0 <= j < |cur.queries| && j != list[0] ::
                 && r.queries[j].turn == cur.queries[j].turn
                 && (TcpStatus(cur.queries[j].status) <==> TcpStatus(r.queries[j].status))
  {
    hide Consistent, MoveOn;
    var i, r := list[0], MoveOn(cfg, cur, list[0], CodeConnect, env);
    MoveOnCore(cfg, cur, i, CodeConnect, env);
    OthersLower(cfg, cur, r, i);
    assert list == [i] + list[1..];
    assert Settled(r, i);
  }

  lemma {:induction false} FailsEndangers(cfg: Config, st: State, s: nat, cur: State, list: seq<nat>, env: Env)
      returns (i: nat, j: nat)
    requires Shape(cfg, st) && s < cfg.N() && Core(cfg, cur) && OnTheWay(st, s, cur, list)
    requires |cur.queries| == |st.queries|
    requires forall k, l | 0 <= k < l < |list| :: list[k] < list[l]
    requires forall k | 0 <= k < |list| :: list[k] < |st.queries|
    requires forall k | 0 <= k < |list| :: TcpStatus(st.queries[list[k]].status) && st.queries[list[k]].turn.curr == s
    requires forall k | 0 <= k < |list| ::
               TcpStatus(cur.queries[list[k]].status) && cur.queries[list[k]].turn == st.queries[list[k]].turn
    requires AnyScanFails(cfg, cur, list, env)
    ensures Endangered(cfg, st, s, i, j)
    decreases |list|
  {
    hide Consistent, MoveOn, WantConnectFails, Leave, OnTheWay;
    i := list[0];
    if MoveOnScanFails(cfg, cur, i, CodeConnect, env) {
      LeaveOnTheWay(cfg, st, s, cur, list, i, CodeConnect);
      SwitchExact(cfg.N(), cur.queries[i].turn);
      var next := SwitchElseFinish(cfg, Leave(cfg, cur, i), i, CodeConnect).0;
      LeaveShape(cfg, cur, i);
      FailsExposed(cfg, st, s, next, list, i, env, 0);
      j :| j in list && j != i && Connecter(st, s, j);
    } else {
      MoveOnTheWay(cfg, st, s, cur, list, env);
      i, j := FailsEndangers(cfg, st, s, MoveOn(cfg, cur, i, CodeConnect, env), list[1..], env);
    }
  }

  /** The assertion fails only where a query is endangered. */
  lemma ScanFailsOnly(cfg: Config, st: State, s: nat, env: Env) returns (i: nat, j: nat)
    requires Inv(cfg, st) && s < cfg.N() && ScanFails(cfg, st, s, env)
    ensures Endangered(cfg, st, s, i, j)
  {
    hide Consistent, AnyScanFails;
    var st0, list := SetOpen(st, s, false), Affected(st.queries, s, |st.queries|);
    SetOpenCore(cfg, st, s, false);
    assert OnTheWay(st, s, st0, list) by {
      forall q | 0 <= q < |st.queries| && st.queries[q].status.TcpConnect? && st.queries[q].turn.curr < |st.servers|
        ensures st.servers[st.queries[q].turn.curr].open
      {
        assert Settled(st, q);
      }
    }
    i, j := FailsEndangers(cfg, st, s, st0, list, env);
  }

  // ------------------------------------------------------------- if

  /** How often `s` is tried before the first other server. */
  function Returns(cfg: Config, st: State, s: nat, t: Turn): nat
    requires |st.servers| == cfg.N() && TurnOk(cfg.N(), t) && ExposedAt(cfg, st, s, t)
    decreases SwitchesLeft(cfg.N(), t)
  {
    SwitchExact(cfg.N(), t);
    if t.curr != s then 0
    else
      assert Exposed(cfg, st, s, t);
      1 + Returns(cfg, st, s, Switch(cfg.N(), t).0)
  }

  /** No socket can be made, but that attempt `m` of query `i` connects at once. */
  function Unlucky(i: nat, m: nat): Env {
    Env((q: nat, k: nat) => if q == i && k == m then Immediate else NoSocket, true)
  }

  ghost predicate SameOpen(a: State, b: State) {
    |a.servers| == |b.servers| && forall t | 0 <= t < |a.servers| :: a.servers[t].open == b.servers[t].open
  }

  ghost predicate SameBut(a: State, b: State, i: nat) {
    |a.queries| == |b.queries| && forall q | 0 <= q < |a.queries| && q != i :: a.queries[q] == b.queries[q]
  }

  lemma {:induction false} NoSocketScan(cfg: Config, st: State, i: nat, env: Env, k: nat)
    requires Shape(cfg, st) && i < |st.queries| && forall m: nat :: env.connect(i, m).NoSocket?
    ensures SameOpen(st, WantConnect(cfg, st, i, env, k)) && SameBut(st, WantConnect(cfg, st, i, env, k), i)
    decreases SwitchesLeft(cfg.N(), st.queries[i].turn)
  {
    hide Want;
    SwitchExact(cfg.N(), st.queries[i].turn);
    if st.servers[st.queries[i].turn.curr].open {
      WantShape(cfg, st, i, TcpSend);
    } else {
      var (st1, again) := Attempt(cfg, st, i, env.connect(i, k));
      if again {
        NoSocketScan(cfg, st1, i, env, k + 1);
      }
    }
  }

  lemma NoSocketMove(cfg: Config, st: State, i: nat, env: Env)
    requires Shape(cfg, st) && i < |st.queries| && forall m: nat :: env.connect(i, m).NoSocket?
    ensures var r := MoveOn(cfg, st, i, CodeConnect, env); SameOpen(st, r) && SameBut(st, r, i)
  {
    hide Leave, WantConnect;
    LeaveShape(cfg, st, i);
    var (st1, ok) := SwitchElseFinish(cfg, Leave(cfg, st, i), i, CodeConnect);
    if ok {
      NoSocketScan(cfg, st1, i, env, 0);
    }
  }

  /** The scan of the endangered query comes to a server that is not connected, connects to
      it at once, and finds query `j` waiting. */
  lemma {:induction false} ExposedFails(cfg: Config, st: State, s: nat, cur: State, i: nat, j: nat, k: nat, m: nat)
    requires |st.servers| == cfg.N() && Shape(cfg, cur) && s < cfg.N() && i < |cur.queries| && i != j
    requires forall t | 0 <= t < cfg.N() :: cur.servers[t].open == (t != s && st.servers[t].open)
    requires Connecter(cur, s, j) && ExposedAt(cfg, st, s, cur.queries[i].turn)
    requires m == k + Returns(cfg, st, s, cur.queries[i].turn)
    ensures WantConnectFails(cfg, cur, i, Unlucky(i, m), k)
    decreases SwitchesLeft(cfg.N(), cur.queries[i].turn)
  {
    hide Want;
    var t := cur.queries[i].turn;
    SwitchExact(cfg.N(), t);
    if t.curr == s {
      ExposedFails(cfg, st, s, Attempt(cfg, cur, i, NoSocket).0, i, j, k + 1, m);
    } else {
      var connected := SetOpen(cur, t.curr, true);
      WantShape(cfg, connected, i, TcpSend);
      assert Connecter(Want(cfg, connected, i, TcpSend), s, j);
    }
  }

  lemma {:induction false} EndangeredFails(cfg: Config, st: State, s: nat, cur: State, list: seq<nat>,
                                           i: nat, j: nat, m: nat)
    requires Shape(cfg, st) && Shape(cfg, cur) && s < cfg.N() && Endangered(cfg, st, s, i, j)
    requires m == Returns(cfg, st, s, Switch(cfg.N(), st.queries[i].turn).0)
    requires |cur.queries| == |st.queries| && i in list && Connecter(cur, s, j)
    requires forall k, l | 0 <= k < l < |list| :: list[k] < list[l]
    requires forall k | 0 <= k < |list| :: list[k] < |st.queries| && cur.queries[list[k]] == st.queries[list[k]]
    requires forall t | 0 <= t < cfg.N() :: cur.servers[t].open == (t != s && st.servers[t].open)
    ensures AnyScanFails(cfg, cur, list, Unlucky(i, m))
    decreases |list|
  {
    hide MoveOn, WantConnectFails, Leave;
    var first := list[0];
    if first == i {
      SwitchExact(cfg.N(), cur.queries[i].turn);
      LeaveShape(cfg, cur, i);
      ExposedFails(cfg, st, s, SwitchElseFinish(cfg, Leave(cfg, cur, i), i, CodeConnect).0, i, j, 0, m);
    } else {
      NoSocketMove(cfg, cur, first, Unlucky(i, m));
      assert list == [first] + list[1..];
      EndangeredFails(cfg, st, s, MoveOn(cfg, cur, first, CodeConnect, Unlucky(i, m)), list[1..], i, j, m);
    }
  }

  // ---------------------------------------------------------- exactly

  /** Some answers of the sockets make the assertion fail exactly where a query of the closed
      connection comes before one that waits to connect to it, and has a server that is not
      connected before it in its rotation. */
  lemma ScanExactly(cfg: Config, st: State, s: nat)
    requires Inv(cfg, st) && s < cfg.N()
    ensures (exists env :: ScanFails(cfg, st, s, env)) <==> (exists i, j :: Endangered(cfg, st, s, i, j))
  {
    hide Consistent, ScanFails, Endangered;
    if exists env :: ScanFails(cfg, st, s, env) {
      var env :| ScanFails(cfg, st, s, env);
      var i, j := ScanFailsOnly(cfg, st, s, env);
    }
    if exists i, j :: Endangered(cfg, st, s, i, j) {
      var i, j :| Endangered(cfg, st, s, i, j);
      EndangeredScan(cfg, st, s, i, j);
    }
  }

  lemma EndangeredScan(cfg: Config, st: State, s: nat, i: nat, j: nat)
    requires Shape(cfg, st) && s < cfg.N() && Endangered(cfg, st, s, i, j)
    ensures exists env :: ScanFails(cfg, st, s, env)
  {
    hide AnyScanFails;
    SwitchExact(cfg.N(), st.queries[i].turn);
    var m := Returns(cfg, st, s, Switch(cfg.N(), st.queries[i].turn).0);
    EndangeredFails(cfg, st, s, SetOpen(st, s, false), Affected(st.queries, s, |st.queries|), i, j, m);
    assert ScanFails(cfg, st, s, Unlucky(i, m));
  }

  /** So it never fails when no query waits to connect to the server. */
  lemma NoConnecterSafe(cfg: Config, st: State, s: nat, env: Env)
    requires Inv(cfg, st) && s < cfg.N() && st.servers[s].connecters == 0
    ensures !ScanFails(cfg, st, s, env)
  {
    hide Consistent, ScanFails;
    if ScanFails(cfg, st, s, env) {
      var i, j := ScanFailsOnly(cfg, st, s, env);
      ConnectersNone(cfg, st, s);
    }
  }

  lemma ConnectersNone(cfg: Config, st: State, s: nat)
    requires Core(cfg, st) && s < cfg.N()
    ensures st.servers[s].connecters == 0 ==> forall k: nat :: !Connecter(st, s, k)
  {
    assert Counter(st, Connecters(s)) == Count(cfg, st.queries, Connecters(s));
    forall k | 0 <= k < |st.queries|
      ensures Count(cfg, st.queries, Connecters(s)) >= One(cfg, st.queries[k], Connecters(s))
    {
      CountUpdate(cfg, st.queries, k, st.queries[k], Connecters(s));
    }
  }

  /** And nowhere does it fail when no connection is made at once. */
  lemma NeverImmediateSafe(cfg: Config, st: State, s: nat, env: Env)
    requires Inv(cfg, st) && s < cfg.N() && NeverImmediate(env)
    ensures !ScanFails(cfg, st, s, env)
  {
    hide Consistent, AnyScanFails;
    MoveAllOnNever(cfg, SetOpen(st, s, false), Affected(st.queries, s, |st.queries|), env);
  }

  // --------------------------------------------------- where it stands

  /** Between events the assertion would hold. Once queries_connect_next has closed connection
      `s`, it would hold exactly when no query waits to connect to `s`. */
  lemma ClosedScan(cfg: Config, st: State, s: nat)
    requires Inv(cfg, st) && s < cfg.N()
    ensures ScanHolds(st)
    ensures ScanHolds(SetOpen(st, s, false)) <==> st.servers[s].connecters == 0
  {
    hide Consistent;
    ScanHoldsBetween(cfg, st);
    ConnectersNone(cfg, st, s);
    CounterNonNegative(cfg, st, Connecters(s));
    if st.servers[s].connecters != 0 {
      var i := CounterWitness(cfg, st, Connecters(s));
      assert Connecter(st, s, i);
    } else {
      forall k | 0 <= k < |st.queries| && st.queries[k].status.TcpConnect? && st.queries[k].turn.curr < |st.servers|
        ensures SetOpen(st, s, false).servers[st.queries[k].turn.curr].open
      {
        assert !Connecter(st, s, k);
        assert st.servers[st.queries[k].turn.curr].open;
      }
    }
  }

  /** Whatever else the sockets answer: a connection made at once for the first query that
      moves on is enough while another one still waits for the failed connection. */
  lemma ImmediateAborts(cfg: Config, st: State, s: nat, i: nat, j: nat, env: Env)
    requires Inv(cfg, st) && s < cfg.N() && i < |st.queries| && i != j && Connecter(st, s, j)
    requires Affected(st.queries, s, |st.queries|) != [] && Affected(st.queries, s, |st.queries|)[0] == i
    requires Switch(cfg.N(), st.queries[i].turn).1 && Switch(cfg.N(), st.queries[i].turn).0.curr != s
    requires TurnOk(cfg.N(), Switch(cfg.N(), st.queries[i].turn).0)
    requires !st.servers[Switch(cfg.N(), st.queries[i].turn).0.curr].open && env.connect(i, 0).Immediate?
    ensures Broken(cfg, st, s, env).Abort?
  {
    hide Consistent, Leave, Want, Affected, MoveOn, AnyStuck;
    var st0 := SetOpen(st, s, false);
    LeaveShape(cfg, st0, i);
    var (st1, ok) := SwitchElseFinish(cfg, Leave(cfg, st0, i), i, CodeConnect);
    var st2 := SetOpen(st1, st1.queries[i].turn.curr, true);
    WantShape(cfg, st2, i, TcpSend);
    assert Connecter(Want(cfg, st2, i, TcpSend), s, j);
    assert MoveOnScanFails(cfg, st0, i, CodeConnect, env);
  }
}
