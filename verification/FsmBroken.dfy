/** A connection that fails: exactly when the sockets can answer so that the program aborts
    while the queries of the connection are moved on. */
module FsmBroken {
  import opened Families
  import opened FsmInvariant
  import opened FsmModel
  import opened FsmScan
  import opened FsmSteps
  import opened FsmUnfinished
  import opened Rotation

  /** A query of connection `s` has some of an answer, and its rotation leads nowhere but to `s`
      or to servers that are not connected. */
  ghost predicate Doomed(cfg: Config, st: State, s: nat, i: nat)
    requires Shape(cfg, st)
  {
    && i < |st.queries| && TcpStatus(st.queries[i].status) && st.queries[i].turn.curr == s
    && st.queries[i].answer.Answer?
    && Unconnected(cfg, st, s, st.queries[i].turn)
  }

  ghost predicate Unconnected(cfg: Config, st: State, s: nat, t: Turn)
    requires |st.servers| == cfg.N() && TurnOk(cfg.N(), t)
  {
    SwitchExact(cfg.N(), t);
    var (next, ok) := Switch(cfg.N(), t);
    ok ==> NoneOpen(st, s, Visits(cfg.N(), next))
  }

  ghost predicate NoneOpen(st: State, s: nat, visits: seq<nat>) {
    forall m | 0 <= m < |visits| && visits[m] < |st.servers| && visits[m] != s :: !st.servers[visits[m]].open
  }

  // ----------------------------------------------------------- only if

  /** What moving the queries of `list` on does to the others, and to connections. */
  ghost predicate AllOthers(a: State, b: State, list: seq<nat>) {
    && |b.queries| == |a.queries| && |b.servers| == |a.servers|
    && (forall j | 0 <= j < |a.queries| && j !in list :: Calm(a.queries[j], b.queries[j]))
    && (forall t | 0 <= t < |a.servers| && a.servers[t].open :: b.servers[t].open)
  }

  lemma {:induction false} MoveAllOthers(cfg: Config, st: State, list: seq<nat>, env: Env)
    requires Core(cfg, st) && Distinct(list)
    requires forall k | 0 <= k < |list| :: list[k] < |st.queries| && TcpStatus(st.queries[list[k]].status)
    ensures AllOthers(st, MoveAllOn(cfg, st, list, env), list)
    decreases |list|
  {
    hide Consistent, MoveOn;
    if list != [] {
      var st1 := MoveOn(cfg, st, list[0], CodeConnect, env);
      MoveOnCore(cfg, st, list[0], CodeConnect, env);
      OthersLower(cfg, st, st1, list[0]);
      MoveAllOthers(cfg, st1, list[1..], env);
      assert list == [list[0]] + list[1..];
    }
  }

  /** With every server on the way fruitless, none was connected before. */
  lemma FruitlessClosed(cfg: Config, st: State, cur: State, s: nat, i: nat, env: Env)
    requires Shape(cfg, st) && Shape(cfg, cur) && i < |st.queries| == |cur.queries|
    requires cur.queries[i].turn == st.queries[i].turn && NoServerLeft(cfg, cur, i, env)
    requires forall t | 0 <= t < cfg.N() && t != s && st.servers[t].open :: cur.servers[t].open
    ensures Unconnected(cfg, st, s, st.queries[i].turn)
  {
    SwitchExact(cfg.N(), st.queries[i].turn);
    var (next, ok) := Switch(cfg.N(), st.queries[i].turn);
    if ok {
      var visits := Visits(cfg.N(), next);
      forall m | 0 <= m < |visits| && visits[m] < |st.servers| && visits[m] != s
        ensures !st.servers[visits[m]].open
      {
        assert Fruitless(cur, i, visits, env, 0, m);
      }
    }
  }

  lemma StuckOnly(cfg: Config, st: State, s: nat, env: Env) returns (i: nat)
    requires Inv(cfg, st) && s < cfg.N()
    requires AnyStuck(cfg, SetOpen(st, s, false), Affected(st.queries, s, |st.queries|), env)
    ensures !cfg.repaired && Doomed(cfg, st, s, i)
  {
    hide Consistent, StuckAt, AnyStuck, Unconnected, Affected;
    var st0, list := SetOpen(st, s, false), Affected(st.queries, s, |st.queries|);
    SetOpenCore(cfg, st, s, false);
    AnyStuckExactly(cfg, st0, list, env);
    var p :| 0 <= p < |list| && StuckAt(cfg, st0, list, p, env);
    i := list[p];
    StuckThen(cfg, st, s, list, p, env);
  }

  lemma StuckThen(cfg: Config, st: State, s: nat, list: seq<nat>, p: nat, env: Env)
    requires Shape(cfg, st) && s < cfg.N() && p < |list| && Distinct(list) && Core(cfg, SetOpen(st, s, false))
    requires forall k | 0 <= k < |list| :: list[k] < |st.queries| && TcpStatus(st.queries[list[k]].status)
    requires StuckAt(cfg, SetOpen(st, s, false), list, p, env)
    ensures !cfg.repaired && st.queries[list[p]].answer.Answer? && Unconnected(cfg, st, s, st.queries[list[p]].turn)
  {
    hide Consistent, MoveAllOn, Unconnected, NoServerLeft;
    var st0, i := SetOpen(st, s, false), list[p];
    MoveAllOthers(cfg, st0, list[..p], env);
    var cur := MoveAllOn(cfg, st0, list[..p], env);
    assert i !in list[..p];
    assert Calm(st0.queries[i], cur.queries[i]);
    FruitlessClosed(cfg, st, cur, s, i, env);
  }

  // ---------------------------------------------------------------- if

  /** No socket can be made. */
  function NoSockets(): Env {
    Env((i: nat, k: nat) => NoSocket, true)
  }

  lemma {:induction false} NoSocketAll(cfg: Config, st: State, list: seq<nat>)
    requires Shape(cfg, st) && forall k | 0 <= k < |list| :: list[k] < |st.queries|
    ensures var r := MoveAllOn(cfg, st, list, NoSockets());
            SameOpen(st, r) && forall j | 0 <= j < |st.queries| && j !in list :: r.queries[j] == st.queries[j]
    decreases |list|
  {
    hide MoveOn;
    if list != [] {
      NoSocketMove(cfg, st, list[0], NoSockets());
      NoSocketAll(cfg, MoveOn(cfg, st, list[0], CodeConnect, NoSockets()), list[1..]);
      assert list == [list[0]] + list[1..];
    }
  }

  lemma {:induction false} VisitsListed(n: nat, t: Turn)
    requires TurnOk(n, t)
    ensures forall m | 0 <= m < |Visits(n, t)| :: Visits(n, t)[m] < n
    decreases SwitchesLeft(n, t)
  {
    SwitchExact(n, t);
    var (next, ok) := Switch(n, t);
    if ok {
      VisitsListed(n, next);
    }
  }

  lemma ClosedFruitless(cfg: Config, st: State, cur: State, s: nat, i: nat)
    requires Shape(cfg, st) && Shape(cfg, cur) && i < |st.queries| == |cur.queries|
    requires cur.queries[i].turn == st.queries[i].turn && Unconnected(cfg, st, s, st.queries[i].turn)
    requires forall t | 0 <= t < cfg.N() :: cur.servers[t].open == (t != s && st.servers[t].open)
    ensures NoServerLeft(cfg, cur, i, NoSockets())
  {
    SwitchExact(cfg.N(), st.queries[i].turn);
    var (next, ok) := Switch(cfg.N(), st.queries[i].turn);
    if ok {
      var visits := Visits(cfg.N(), next);
      VisitsListed(cfg.N(), next);
      forall m | 0 <= m < |visits|
        ensures Fruitless(cur, i, visits, NoSockets(), 0, m)
      {
      }
    }
  }

  lemma DoomedStuck(cfg: Config, st: State, s: nat, i: nat)
    requires Inv(cfg, st) && s < cfg.N() && !cfg.repaired && Doomed(cfg, st, s, i)
    ensures AnyStuck(cfg, SetOpen(st, s, false), Affected(st.queries, s, |st.queries|), NoSockets())
  {
    hide Consistent, MoveAllOn, AnyStuck, Unconnected, NoServerLeft;
    var st0, list := SetOpen(st, s, false), Affected(st.queries, s, |st.queries|);
    AnyStuckExactly(cfg, st0, list, NoSockets());
    assert i in list;
    var p :| 0 <= p < |list| && list[p] == i;
    NoSocketAll(cfg, st0, list[..p]);
    var cur := MoveAllOn(cfg, st0, list[..p], NoSockets());
    assert i !in list[..p];
    ClosedFruitless(cfg, st, cur, s, i);
    assert StuckAt(cfg, st0, list, p, NoSockets());
  }

  // ---------------------------------------------------------- exactly

  /** Some answers of the sockets leave a query of the failed connection with a buffer in its
      way exactly in the program as it stands, where a query is doomed. */
  lemma AnyStuckSome(cfg: Config, st: State, s: nat)
    requires Inv(cfg, st) && s < cfg.N()
    ensures (exists env :: AnyStuck(cfg, SetOpen(st, s, false), Affected(st.queries, s, |st.queries|), env))
       <==> !cfg.repaired && exists i :: Doomed(cfg, st, s, i)
  {
    hide Consistent, AnyStuck, Doomed, Affected;
    if exists env :: AnyStuck(cfg, SetOpen(st, s, false), Affected(st.queries, s, |st.queries|), env) {
      var env :| AnyStuck(cfg, SetOpen(st, s, false), Affected(st.queries, s, |st.queries|), env);
      var i := StuckOnly(cfg, st, s, env);
    }
    if !cfg.repaired && exists i :: Doomed(cfg, st, s, i) {
      var i :| Doomed(cfg, st, s, i);
      DoomedStuck(cfg, st, s, i);
    }
  }

  /** A failed connection can abort the program exactly where a query is endangered, or, as the
      program stands, doomed. */
  lemma BrokenExactly(cfg: Config, st: State, s: nat)
    requires Inv(cfg, st) && s < cfg.N() && Affected(st.queries, s, |st.queries|) != []
    ensures (exists env :: Broken(cfg, st, s, env).Abort?)
       <==> (exists i, j :: Endangered(cfg, st, s, i, j)) || (!cfg.repaired && exists i :: Doomed(cfg, st, s, i))
  {
    hide Consistent, AnyScanFails, AnyStuck, Endangered, Doomed, MoveAllOn, Affected;
    ScanExactly(cfg, st, s);
    AnyStuckSome(cfg, st, s);
    forall env: Env
      ensures Broken(cfg, st, s, env).Abort?
         <==> ScanFails(cfg, st, s, env) || AnyStuck(cfg, SetOpen(st, s, false), Affected(st.queries, s, |st.queries|), env)
    {
    }
    if exists env :: Broken(cfg, st, s, env).Abort? {
      var env :| Broken(cfg, st, s, env).Abort?;
      assert ScanFails(cfg, st, s, env) || AnyStuck(cfg, SetOpen(st, s, false), Affected(st.queries, s, |st.queries|), env);
    }
    if exists env :: ScanFails(cfg, st, s, env) {
      var env :| ScanFails(cfg, st, s, env);
      assert Broken(cfg, st, s, env).Abort?;
    }
    if exists env :: AnyStuck(cfg, SetOpen(st, s, false), Affected(st.queries, s, |st.queries|), env) {
      var env :| AnyStuck(cfg, SetOpen(st, s, false), Affected(st.queries, s, |st.queries|), env);
      assert Broken(cfg, st, s, env).Abort?;
    }
  }
}
