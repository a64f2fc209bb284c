/** Every event keeps the invariant, lowers the progress measure, and aborts in
    exactly the listed situations. */
module FsmInvariant {
  import opened Families
  import opened FsmModel
  import opened FsmSteps
  import opened Limits
  import opened Rotation

  // ---------------------------------------------------------------- measure

  function Phase(s: Status): nat {
    match s
    case UdpSend => 6
    case UdpRecv => 5
    case TcpConnect => 4
    case TcpSend => 3
    case TcpHead => 2
    case TcpBody => 1
    case Void => 0
  }

  /** Lexicographic in (search suffixes left, server switches left, phase). */
  function Measure(cfg: Config, q: Query): int
    requires TurnOk(cfg.N(), q.turn)
  {
    if q.calls > 0 then 0
    else if q.finish then 1
    else 2 + 7 * AttemptsLeft(cfg, q) + Phase(q.status)
  }

  lemma AttemptsLeftBounds(cfg: Config, q: Query)
    requires cfg.Ok() && TurnOk(cfg.N(), q.turn) && q.turn.retries <= Max0(cfg.retry)
    requires -1 <= q.search < Max0(cfg.SearchSize())
    ensures SwitchesLeft(cfg.N(), q.turn) < AttemptsPerName(cfg)
    ensures 0 <= AttemptsLeft(cfg, q) < AttemptsPerQuery(cfg)
  {
    TimesMonotone(Max0(q.turn.retries), Max0(cfg.retry), cfg.N());
    TimesMonotone(SuffixesLeft(cfg, q), cfg.SearchSize(), AttemptsPerName(cfg));
  }

  lemma MeasureNonNegative(cfg: Config, q: Query)
    requires cfg.Ok() && QueryOk(cfg, q)
    ensures 0 <= Measure(cfg, q) <= 1 + 7 * AttemptsPerQuery(cfg)
  {
    AttemptsLeftBounds(cfg, q);
  }

  // ------------------------------------------------------- frame of an event

  /** What an event does to the queries it is not about: nothing, or the move from
      waiting for a connection to waiting to send on it. */
  ghost predicate Calm(a: Query, b: Query) {
    b == a || (a.status.TcpConnect? && b == a.(status := TcpSend, timer := NoTimer))
  }

  ghost predicate Others(a: State, b: State, i: int) {
    && |b.queries| == |a.queries| && |b.servers| == |a.servers|
    && (forall j | 0 <= j < |a.queries| && j != i :: Calm(a.queries[j], b.queries[j]))
    && (forall s | 0 <= s < |a.servers| && a.servers[s].open :: b.servers[s].open)
  }

  // --------------------------------------------------------- single updates

  lemma UpdateCore(cfg: Config, st: State, i: nat, q: Query)
    requires Core(cfg, st) && i < |st.queries|
    requires q.status == st.queries[i].status && QueryOk(cfg, q)
    requires q.status.Void? || q.turn == st.queries[i].turn
    ensures Core(cfg, Set(st, i, q))
  {
    forall slot | SlotIn(cfg.N(), slot) && slot != Nowhere
      ensures Count(cfg, st.queries[i := q], slot) == Count(cfg, st.queries, slot)
    {
      CountUpdate(cfg, st.queries, i, q, slot);
    }
  }

  lemma SetOpenCore(cfg: Config, st: State, s: nat, open: bool)
    requires Core(cfg, st) && s < cfg.N()
    ensures Core(cfg, SetOpen(st, s, open))
  {
    assert forall slot | SlotIn(cfg.N(), slot) :: Counter(SetOpen(st, s, open), slot) == Counter(st, slot);
  }

  lemma SetHeadLenCore(cfg: Config, st: State, s: nat, len: int)
    requires Core(cfg, st) && s < cfg.N() && 0 <= len <= TCP_HEADER
    ensures Core(cfg, SetHeadLen(st, s, len))
  {
    assert forall slot | SlotIn(cfg.N(), slot) :: Counter(SetHeadLen(st, s, len), slot) == Counter(st, slot);
  }

  lemma SwitchCore(cfg: Config, st: State, i: nat, code: Code)
    requires Core(cfg, st) && i < |st.queries| && CanWant(cfg, st, i, TcpSend)
    requires !code.CodeVoid? && !code.CodeOk?
    ensures var (r, ok) := SwitchElseFinish(cfg, st, i, code);
            && Core(cfg, r)
            && r.queries[i].status.Void? && r.queries[i].answer == st.queries[i].answer
            && (ok ==> CanWant(cfg, r, i, TcpSend) && AttemptsLeft(cfg, r.queries[i]) == AttemptsLeft(cfg, st.queries[i]) - 1)
            && (ok && CanWant(cfg, st, i, UdpSend) ==> CanWant(cfg, r, i, UdpSend))
            && (!ok ==> r.queries[i].finish)
            && Measure(cfg, r.queries[i]) <= Measure(cfg, st.queries[i]) - (if ok then 7 else 1)
            && r.queries == st.queries[i := r.queries[i]] && r.servers == st.servers
  {
    var q := st.queries[i];
    SwitchExact(cfg.N(), q.turn);
    AttemptsLeftBounds(cfg, q);
    var (r, ok) := SwitchElseFinish(cfg, st, i, code);
    UpdateCore(cfg, st, i, r.queries[i]);
  }

  lemma WantResult(cfg: Config, st: State, i: nat, s: Status)
    requires Core(cfg, st) && i < |st.queries| && CanWant(cfg, st, i, s)
    ensures var r := Want(cfg, st, i, s);
            && Core(cfg, r) && Others(st, r, i)
            && r.queries == st.queries[i := r.queries[i]]
            && r.queries[i] == st.queries[i].(status := s, timer := TimerFor(s))
            && r.servers[st.queries[i].turn.curr].open == st.servers[st.queries[i].turn.curr].open
            && Measure(cfg, r.queries[i]) == Measure(cfg, st.queries[i]) + Phase(s)
  {
    hide Consistent, Want;
    WantCore(cfg, st, i, s);
    WantShape(cfg, st, i, s);
    assert AttemptsLeft(cfg, Want(cfg, st, i, s).queries[i]) == AttemptsLeft(cfg, st.queries[i]);
  }

  lemma DoneResult(cfg: Config, st: State, i: nat)
    requires Core(cfg, st) && i < |st.queries| && !st.queries[i].status.Void?
    ensures var r := Done(cfg, st, i);
            && Core(cfg, r) && Others(st, r, i)
            && r.queries == st.queries[i := r.queries[i]]
            && r.queries[i] == st.queries[i].(status := Void, timer := NoTimer)
            && r.servers[st.queries[i].turn.curr].open == st.servers[st.queries[i].turn.curr].open
            && Measure(cfg, r.queries[i]) == Measure(cfg, st.queries[i]) - Phase(st.queries[i].status)
  {
    hide Consistent, Done;
    QueryFacts(cfg, st, i);
    DoneCore(cfg, st, i);
    DoneShape(cfg, st, i);
    assert AttemptsLeft(cfg, Done(cfg, st, i).queries[i]) == AttemptsLeft(cfg, st.queries[i]);
  }

  lemma OthersTrans(a: State, b: State, c: State, i: nat)
    requires Others(a, b, i) && Others(b, c, i)
    requires forall j | 0 <= j < |a.queries| && j != i :: a.queries[j] == b.queries[j]
    ensures Others(a, c, i)
  {
  }

  // --------------------------------------------------------- compound moves

  /** Queries `k >= j` waiting for the connection to `s` wait to send instead; all else stays. */
  ghost predicate Written(a: State, b: State, s: nat, j: nat) {
    && |b.queries| == |a.queries| && |b.servers| == |a.servers|
    && (forall k | 0 <= k < |a.queries| ::
          b.queries[k] == if k >= j && a.queries[k].status.TcpConnect? && a.queries[k].turn.curr == s
                          then a.queries[k].(status := TcpSend, timer := NoTimer) else a.queries[k])
    && (forall t | 0 <= t < |a.servers| :: b.servers[t].open == a.servers[t].open)
  }

  lemma WriteOne(cfg: Config, st: State, j: nat)
    requires Core(cfg, st) && j < |st.queries| && st.queries[j].status.TcpConnect?
    ensures var r := Want(cfg, Done(cfg, st, j), j, TcpSend);
            && Core(cfg, r)
            && r.queries == st.queries[j := st.queries[j].(status := TcpSend, timer := NoTimer)]
            && |r.servers| == |st.servers|
            && (forall t | 0 <= t < |st.servers| :: r.servers[t].open == st.servers[t].open)
  {
    hide Consistent;
    QueryFacts(cfg, st, j);
    DoneCore(cfg, st, j);
    WantCore(cfg, Done(cfg, st, j), j, TcpSend);
    DoneShape(cfg, st, j);
    WantShape(cfg, Done(cfg, st, j), j, TcpSend);
  }

  lemma {:induction false} ConnectToWriteCore(cfg: Config, st: State, s: nat, j: nat)
    requires Core(cfg, st) && s < cfg.N()
    ensures Core(cfg, ConnectToWrite(cfg, st, s, j))
    ensures Written(st, ConnectToWrite(cfg, st, s, j), s, j)
    decreases |st.queries| - j
  {
    hide Consistent;
    if j < |st.queries| {
      if st.queries[j].status.TcpConnect? && st.queries[j].turn.curr == s {
        WriteOne(cfg, st, j);
        ConnectToWriteCore(cfg, Want(cfg, Done(cfg, st, j), j, TcpSend), s, j + 1);
      } else {
        ConnectToWriteCore(cfg, st, s, j + 1);
      }
    }
  }

  /** Query `i` went from state `a` to `r`, waiting on an open connection or finishing. */
  ghost predicate Landed(cfg: Config, a: State, r: State, i: nat) {
    && i < |a.queries| && TurnOk(cfg.N(), a.queries[i].turn)
    && Core(cfg, r) && Others(a, r, i) && Settled(r, i)
    && Measure(cfg, r.queries[i]) <= Measure(cfg, a.queries[i]) + 4
  }

  lemma LandWriting(cfg: Config, st: State, i: nat)
    requires Core(cfg, st) && i < |st.queries| && CanWant(cfg, st, i, TcpSend)
    requires st.servers[st.queries[i].turn.curr].open
    ensures Landed(cfg, st, Want(cfg, st, i, TcpSend), i)
    ensures Want(cfg, st, i, TcpSend).queries[i].status.TcpSend?
  {
    hide Consistent, Want;
    WantResult(cfg, st, i, TcpSend);
  }

  lemma LandConnecting(cfg: Config, st: State, i: nat)
    requires Core(cfg, st) && i < |st.queries| && CanWant(cfg, st, i, TcpConnect)
    requires st.servers[st.queries[i].turn.curr].open
    ensures Landed(cfg, st, Want(cfg, st, i, TcpConnect), i)
  {
    hide Consistent, Want;
    WantResult(cfg, st, i, TcpConnect);
  }

  lemma LandImmediate(cfg: Config, st: State, i: nat)
    requires Core(cfg, st) && i < |st.queries| && CanWant(cfg, st, i, TcpSend)
    requires st.servers[st.queries[i].turn.curr].open
    ensures Landed(cfg, st, ConnectToWrite(cfg, Want(cfg, st, i, TcpSend), st.queries[i].turn.curr, 0), i)
  {
    hide Consistent;
    LandWriting(cfg, st, i);
    ConnectToWriteCore(cfg, Want(cfg, st, i, TcpSend), st.queries[i].turn.curr, 0);
  }

  lemma LandOpened(cfg: Config, st: State, r: State, i: nat)
    requires i < |st.queries| && |st.servers| == cfg.N() && TurnOk(cfg.N(), st.queries[i].turn)
    requires Landed(cfg, SetOpen(st, st.queries[i].turn.curr, true), r, i)
    ensures Landed(cfg, st, r, i)
  {
    hide Consistent;
  }

  /** The scan for a connection ends: connected, connecting, or out of servers. */
  lemma {:induction false} WantConnectCore(cfg: Config, st: State, i: nat, env: Env, k: nat)
    requires Core(cfg, st) && i < |st.queries| && CanWant(cfg, st, i, TcpSend)
    ensures Landed(cfg, st, WantConnect(cfg, st, i, env, k), i)
    decreases SwitchesLeft(cfg.N(), st.queries[i].turn)
  {
    hide Consistent;
    var s := st.queries[i].turn.curr;
    if st.servers[s].open {
      LandWriting(cfg, st, i);
    } else {
      var st0 := SetOpen(st, s, true);
      SetOpenCore(cfg, st, s, true);
      match env.connect(i, k)
      case Immediate =>
        LandImmediate(cfg, st0, i);
        LandOpened(cfg, st, WantConnect(cfg, st, i, env, k), i);
      case InProgress =>
        LandConnecting(cfg, st0, i);
        LandOpened(cfg, st, WantConnect(cfg, st, i, env, k), i);
      case NoSocket =>
        ConnectAgain(cfg, st, i, env, k);
      case Refused =>
        SwitchExact(cfg.N(), st.queries[i].turn);
        ConnectAgain(cfg, st0, i, env, k);
        LandOpened(cfg, st, WantConnect(cfg, st, i, env, k), i);
    }
  }

  lemma {:induction false} ConnectAgain(cfg: Config, st: State, i: nat, env: Env, k: nat)
    requires Core(cfg, st) && i < |st.queries| && CanWant(cfg, st, i, TcpSend)
    ensures var (st1, ok) := SwitchElseFinish(cfg, st, i, CodeConnect);
            Landed(cfg, st, if ok then WantConnect(cfg, st1, i, env, k + 1) else st1, i)
    decreases SwitchesLeft(cfg.N(), st.queries[i].turn), 0
  {
    hide Consistent;
    SwitchExact(cfg.N(), st.queries[i].turn);
    SwitchCore(cfg, st, i, CodeConnect);
    var (st1, ok) := SwitchElseFinish(cfg, st, i, CodeConnect);
    if ok {
      WantConnectCore(cfg, st1, i, env, k + 1);
      LandSwitched(cfg, st, st1, WantConnect(cfg, st1, i, env, k + 1), i);
    }
  }

  lemma LandSwitched(cfg: Config, st: State, st1: State, r: State, i: nat)
    requires i < |st.queries| && TurnOk(cfg.N(), st.queries[i].turn)
    requires i < |st1.queries| && st1.queries == st.queries[i := st1.queries[i]] && st1.servers == st.servers
    requires Landed(cfg, st1, r, i) && Measure(cfg, st1.queries[i]) <= Measure(cfg, st.queries[i])
    ensures Landed(cfg, st, r, i)
  {
    hide Consistent;
  }

  lemma ReleaseCore(cfg: Config, st: State, i: nat)
    requires Core(cfg, st) && i < |st.queries| && st.queries[i].status.Void? && !st.queries[i].code.CodeOk?
    ensures Core(cfg, Release(st, i))
    ensures Measure(cfg, Release(st, i).queries[i]) == Measure(cfg, st.queries[i])
  {
    var q := st.queries[i].(answer := NoAnswer);
    assert AttemptsLeft(cfg, q) == AttemptsLeft(cfg, st.queries[i]);
    UpdateCore(cfg, st, i, q);
  }

  /** What leaving a status changes: the query stops waiting, and loses its answer where
      the program is repaired. */
  lemma LeaveShape(cfg: Config, st: State, i: nat)
    requires Shape(cfg, st) && i < |st.queries|
    ensures var r, q := Leave(cfg, st, i), st.queries[i];
            && r.queries == st.queries[i := q.(status := Void, timer := NoTimer,
                                               answer := if cfg.repaired then NoAnswer else q.answer)]
            && |r.servers| == |st.servers|
            && (forall k | 0 <= k < cfg.N() ::
                  r.servers[k].open == st.servers[k].open && r.servers[k].headLen == st.servers[k].headLen)
            && r.nextServer == st.nextServer && r.nextId == st.nextId
  {
    hide Done;
    DoneShape(cfg, st, i);
  }

  lemma LeaveCore(cfg: Config, st: State, i: nat)
    requires Core(cfg, st) && i < |st.queries| && TcpStatus(st.queries[i].status)
    ensures var r := Leave(cfg, st, i);
            && Core(cfg, r) && CanWant(cfg, r, i, TcpSend)
            && Measure(cfg, r.queries[i]) == Measure(cfg, st.queries[i]) - Phase(st.queries[i].status)
  {
    hide Consistent, Done;
    QueryFacts(cfg, st, i);
    DoneResult(cfg, st, i);
    if cfg.repaired {
      ReleaseCore(cfg, Done(cfg, st, i), i);
    }
    LeaveShape(cfg, st, i);
  }

  lemma LeaveOthers(cfg: Config, st: State, r: State, i: nat)
    requires Shape(cfg, st) && i < |st.queries| && Others(Leave(cfg, st, i), r, i)
    ensures Others(st, r, i)
  {
    hide Leave;
    LeaveShape(cfg, st, i);
  }

  /** A query leaves its status for its next server. */
  lemma MoveOnCore(cfg: Config, st: State, i: nat, code: Code, env: Env)
    requires Core(cfg, st) && i < |st.queries| && TcpStatus(st.queries[i].status)
    requires !code.CodeVoid? && !code.CodeOk?
    ensures var r := MoveOn(cfg, st, i, code, env);
            && Core(cfg, r) && Others(st, r, i) && Settled(r, i)
            && Measure(cfg, r.queries[i]) < Measure(cfg, st.queries[i])
  {
    hide Consistent, Leave, WantConnect, CanWant;
    LeaveCore(cfg, st, i);
    var st1 := Leave(cfg, st, i);
    SwitchCore(cfg, st1, i, code);
    var (st2, ok) := SwitchElseFinish(cfg, st1, i, code);
    if ok {
      WantConnectCore(cfg, st2, i, env, 0);
    }
    LeaveOthers(cfg, st, MoveOn(cfg, st, i, code, env), i);
  }

  ghost predicate Distinct(list: seq<nat>) {
    forall k, l | 0 <= k < l < |list| :: list[k] != list[l]
  }

  /** Measures never grow from `a` to `b`, and shrink for the queries in `list`. */
  ghost predicate Lower(cfg: Config, a: State, b: State, list: seq<nat>) {
    && |b.queries| == |a.queries|
    && (forall j | 0 <= j < |a.queries| ::
          && TurnOk(cfg.N(), a.queries[j].turn) && TurnOk(cfg.N(), b.queries[j].turn)
          && Measure(cfg, b.queries[j]) <= Measure(cfg, a.queries[j])
          && (j in list ==> Measure(cfg, b.queries[j]) < Measure(cfg, a.queries[j])))
  }

  lemma CalmLower(cfg: Config, a: Query, b: Query)
    requires Calm(a, b) && TurnOk(cfg.N(), a.turn)
    ensures b.turn == a.turn && Measure(cfg, b) <= Measure(cfg, a) && (TcpStatus(a.status) <==> TcpStatus(b.status))
  {
    assert AttemptsLeft(cfg, a) == AttemptsLeft(cfg, b);
  }

  lemma OthersLower(cfg: Config, a: State, b: State, i: nat)
    requires Shape(cfg, a) && i < |a.queries| && Others(a, b, i) && TurnOk(cfg.N(), b.queries[i].turn)
    requires Measure(cfg, b.queries[i]) < Measure(cfg, a.queries[i])
    ensures Lower(cfg, a, b, [i])
    ensures forall j | 0 <= j < |a.queries| && j != i :: Settled(a, j) ==> Settled(b, j)
    ensures forall j | 0 <= j < |a.queries| && j != i ::
              b.queries[j].turn == a.queries[j].turn && (TcpStatus(a.queries[j].status) <==> TcpStatus(b.queries[j].status))
  {
    hide Consistent;
    forall j | 0 <= j < |a.queries| && j != i
      ensures b.queries[j].turn == a.queries[j].turn
      ensures Measure(cfg, b.queries[j]) <= Measure(cfg, a.queries[j])
      ensures TcpStatus(a.queries[j].status) <==> TcpStatus(b.queries[j].status)
    {
      CalmLower(cfg, a.queries[j], b.queries[j]);
    }
  }

  lemma {:induction false} MoveAllOnInv(cfg: Config, st: State, list: seq<nat>, env: Env)
    requires Core(cfg, st) && Distinct(list)
    requires forall k | 0 <= k < |list| :: list[k] < |st.queries| && TcpStatus(st.queries[list[k]].status)
    requires forall j | 0 <= j < |st.queries| && j !in list :: Settled(st, j)
    ensures Inv(cfg, MoveAllOn(cfg, st, list, env))
    ensures Lower(cfg, st, MoveAllOn(cfg, st, list, env), list)
    decreases |list|
  {
    hide Consistent;
    if list != [] {
      var st1 := MoveOn(cfg, st, list[0], CodeConnect, env);
      MoveOnCore(cfg, st, list[0], CodeConnect, env);
      OthersLower(cfg, st, st1, list[0]);
      assert list == [list[0]] + list[1..];
      MoveAllOnInv(cfg, st1, list[1..], env);
    }
  }

  /** A failed connection: every query on it moves on, none keeps a closed connection. */
  lemma ConnectNextInv(cfg: Config, st: State, s: nat, env: Env)
    requires Inv(cfg, st) && s < cfg.N()
    ensures Inv(cfg, ConnectNext(cfg, st, s, env))
    ensures Lower(cfg, st, ConnectNext(cfg, st, s, env), Affected(st.queries, s, |st.queries|))
  {
    hide Consistent;
    SetOpenCore(cfg, st, s, false);
    var list, st0 := Affected(st.queries, s, |st.queries|), SetOpen(st, s, false);
    forall j | 0 <= j < |st.queries| && j !in list
      ensures Settled(st0, j)
    {
      assert Settled(st, j);
    }
    MoveAllOnInv(cfg, st0, list, env);
  }

  /** The query as it starts over with the next suffix. */
  function Restarted(cfg: Config, q: Query): Query {
    q.(search := q.search + 1, answer := NoAnswer, code := CodeVoid,
       turn := Turn(q.turn.curr, q.turn.curr, cfg.retry))
  }

  lemma SuffixQuery(cfg: Config, q: Query)
    requires cfg.Ok() && QueryOk(cfg, q) && q.status.Void? && Live(q) && TriesSuffix(cfg, q)
    ensures QueryOk(cfg, Call(q.(search := q.search + 1, code := CodeConcatSearchList)))
    ensures QueryOk(cfg, Call(Restarted(cfg, q).(code := CodeLaunchSearchList)))
    ensures QueryOk(cfg, Restarted(cfg, q).(tries := q.tries + 1))
    ensures Measure(cfg, Restarted(cfg, q).(tries := q.tries + 1)) + 7 <= Measure(cfg, q)
    ensures 0 < Measure(cfg, q)
  {
    AttemptsLeftBounds(cfg, q);
    var q1 := Restarted(cfg, q);
    AttemptsLeftBounds(cfg, q1);
    var a := AttemptsPerName(cfg);
    assert Times(SuffixesLeft(cfg, q), a) == a + Times(SuffixesLeft(cfg, q1), a);
    assert AttemptsLeft(cfg, q1.(tries := q.tries + 1)) == AttemptsLeft(cfg, q1);
  }

  lemma CalledCore(cfg: Config, st: State, i: nat, q: Query)
    requires Core(cfg, st) && i < |st.queries| && QueryOk(cfg, q)
    requires st.queries[i].status.Void? && q.status.Void? && q.calls > 0
    ensures Core(cfg, Set(st, i, q)) && Others(st, Set(st, i, q), i) && Settled(Set(st, i, q), i)
    ensures Measure(cfg, q) == 0
  {
    UpdateCore(cfg, st, i, q);
  }

  lemma RestartCore(cfg: Config, st: State, i: nat)
    requires Core(cfg, st) && i < |st.queries|
    requires var q := st.queries[i]; q.status.Void? && Live(q) && TriesSuffix(cfg, q)
    ensures var q := st.queries[i];
            var r := Want(cfg, Set(st, i, Restarted(cfg, q).(tries := q.tries + 1)), i, UdpSend);
            && Core(cfg, r) && Others(st, r, i) && Settled(r, i)
            && Measure(cfg, r.queries[i]) < Measure(cfg, q)
  {
    hide Consistent, QueryOk, Want, Measure, AttemptsLeft;
    QueryFacts(cfg, st, i);
    var q := st.queries[i];
    SuffixQuery(cfg, q);
    var st1 := Set(st, i, Restarted(cfg, q).(tries := q.tries + 1));
    UpdateCore(cfg, st, i, st1.queries[i]);
    WantResult(cfg, st1, i, UdpSend);
    OthersTrans(st, st1, Want(cfg, st1, i, UdpSend), i);
  }

  lemma CallBack(cfg: Config, st: State, i: nat, q: Query)
    requires Core(cfg, st) && i < |st.queries|
    requires var q0 := st.queries[i];
             q0.status.Void? && Live(q0) && !q0.code.CodeVoid? && !q.code.CodeVoid?
             && ((q == q0 && !(q0.code.CodeOk? && q0.tc) && !TriesSuffix(cfg, q0))
                 || (q0.code.CodeOk? && q == q0.(code := CodeAnswerTrunc)))
    ensures Core(cfg, Set(st, i, Call(q))) && Others(st, Set(st, i, Call(q)), i) && Settled(Set(st, i, Call(q)), i)
    ensures Measure(cfg, Call(q)) == 0 < Measure(cfg, st.queries[i])
  {
    hide Consistent, Times;
    QueryFacts(cfg, st, i);
    CalledCore(cfg, st, i, Call(q));
  }

  /** A query with a result calls back, or starts over with the next search suffix. */
  lemma QueryDoneCore(cfg: Config, st: State, i: nat, env: Env)
    requires Core(cfg, st) && i < |st.queries|
    requires st.queries[i].status.Void? && Live(st.queries[i]) && !st.queries[i].code.CodeVoid?
    ensures var r := QueryDone(cfg, st, i, env);
            && Core(cfg, r) && Others(st, r, i) && Settled(r, i)
            && Measure(cfg, r.queries[i]) < Measure(cfg, st.queries[i])
  {
    hide Consistent, QueryOk, Want;
    QueryFacts(cfg, st, i);
    var q := st.queries[i];
    if q.code.CodeOk? && q.tc {
      CallBack(cfg, st, i, q.(code := CodeAnswerTrunc));
    } else if !TriesSuffix(cfg, q) {
      CallBack(cfg, st, i, q);
    } else {
      SuffixQuery(cfg, q);
      if !NextJoin(cfg, q).Joins? {
        CalledCore(cfg, st, i, Call(q.(search := q.search + 1, code := CodeConcatSearchList)));
      } else if env.startOk {
        RestartCore(cfg, st, i);
      } else {
        CalledCore(cfg, st, i, Call(Restarted(cfg, q).(code := CodeLaunchSearchList)));
      }
    }
  }

  // ---------------------------------------------------------- the scan holds

  /** A query that scans for a connection fails no scan, where none would fail already. */
  lemma {:induction false} WantConnectSafe(cfg: Config, st: State, i: nat, env: Env, k: nat)
    requires Shape(cfg, st) && i < |st.queries| && st.queries[i].status.Void? && ScanHolds(st)
    ensures !WantConnectFails(cfg, st, i, env, k)
    decreases SwitchesLeft(cfg.N(), st.queries[i].turn)
  {
    hide Want;
    var s := st.queries[i].turn.curr;
    var st0 := SetOpen(st, s, true);
    WantShape(cfg, st0, i, TcpSend);
    SwitchExact(cfg.N(), st.queries[i].turn);
    if !st.servers[s].open && !env.connect(i, k).Immediate? {
      var (st1, again) := Attempt(cfg, st, i, env.connect(i, k));
      if again {
        WantConnectSafe(cfg, st1, i, env, k + 1);
      }
    }
  }

  /** It holds between events, so neither a timeout nor a truncated answer fails it. */
  lemma ScanHoldsBetween(cfg: Config, st: State)
    requires Inv(cfg, st)
    ensures ScanHolds(st)
  {
    hide Consistent;
    forall k | 0 <= k < |st.queries| && st.queries[k].status.TcpConnect? && st.queries[k].turn.curr < |st.servers|
      ensures st.servers[st.queries[k].turn.curr].open
    {
      assert Settled(st, k);
    }
  }

  lemma MoveOnSafe(cfg: Config, st: State, i: nat, code: Code, env: Env)
    requires Shape(cfg, st) && i < |st.queries| && ScanHolds(st)
    ensures !MoveOnScanFails(cfg, st, i, code, env)
  {
    hide Leave, WantConnectFails;
    LeaveShape(cfg, st, i);
    var (st1, ok) := SwitchElseFinish(cfg, Leave(cfg, st, i), i, code);
    if ok {
      WantConnectSafe(cfg, st1, i, env, 0);
    }
  }

  /** An answer that leads to a suffix, with a name that fills the limit. */
  ghost predicate DatagramAborts(cfg: Config, q: Query, d: Datagram)
    requires d.Datagram?
  {
    && CheckAnswerFlags(d.flags, q.options.needRa).CodeOk? && d.flags & MASK_TC == 0
    && ResultFails(cfg, q.(code := CodeOk, rcode := d.rcode, tc := false))
  }

  lemma UdpAnswerSafe(cfg: Config, st: State, i: nat, d: Datagram, env: Env)
    requires Shape(cfg, st) && i < |st.queries| && ScanHolds(st) && d.Datagram?
    ensures UdpAnswerFails(cfg, st, i, d, env) <==> DatagramAborts(cfg, st.queries[i], d)
  {
    hide Done, WantConnectFails;
    DoneShape(cfg, st, i);
    WantConnectSafe(cfg, Done(cfg, st, i), i, env, 0);
  }

  /** No connection is made at once. */
  ghost predicate NeverImmediate(env: Env) {
    forall i: nat, k: nat :: !env.connect(i, k).Immediate?
  }

  lemma {:induction false} WantConnectNever(cfg: Config, st: State, i: nat, env: Env, k: nat)
    requires Shape(cfg, st) && i < |st.queries| && NeverImmediate(env)
    ensures !WantConnectFails(cfg, st, i, env, k)
    decreases SwitchesLeft(cfg.N(), st.queries[i].turn)
  {
    hide Want;
    if !st.servers[st.queries[i].turn.curr].open {
      var (st1, again) := Attempt(cfg, st, i, env.connect(i, k));
      if again {
        WantConnectNever(cfg, st1, i, env, k + 1);
      }
    }
  }

  lemma {:induction false} MoveAllOnNever(cfg: Config, st: State, list: seq<nat>, env: Env)
    requires Shape(cfg, st) && (forall k | 0 <= k < |list| :: list[k] < |st.queries|) && NeverImmediate(env)
    ensures !AnyScanFails(cfg, st, list, env)
    decreases |list|
  {
    hide MoveOn, WantConnectFails;
    if list != [] {
      var (st1, ok) := SwitchElseFinish(cfg, Leave(cfg, st, list[0]), list[0], CodeConnect);
      WantConnectNever(cfg, st1, list[0], env, 0);
      MoveAllOnNever(cfg, MoveOn(cfg, st, list[0], CodeConnect, env), list[1..], env);
    }
  }

  // ------------------------------------------------------------------ events

  /** The situations in which an assertion of the program fails. */
  ghost predicate Aborts(cfg: Config, st: State, e: Event, env: Env)
    requires Shape(cfg, st) && Enabled(cfg, st, e)
  {
    match e
    case Delete(i) => !cfg.repaired && st.queries[i].status.TcpSend?
    case UdpReadable(family, d) =>
      && d.Datagram? && MSG_HEADER <= d.size <= DATAGRAM_HIGH
      && var i := FirstWithId(st.queries, d.id, 0);
         && i < |st.queries| && st.queries[i].status.UdpRecv?
         && (cfg.families[st.queries[i].turn.curr] != family || DatagramAborts(cfg, st.queries[i], d))
    case HeadTimeout(i) => Stuck(cfg, st, i, CodeTimeout, env)
    case BodyTimeout(i) => Stuck(cfg, st, i, CodeTimeout, env)
    case ConnectResult(s, connected) => !connected && ConnectNextFails(cfg, st, s, env)
    case TcpWritable(s, sent) => sent.SendFail? && ConnectNextFails(cfg, st, s, env)
    case TcpReadable(s, received, header) =>
      var i := FirstBody(st.queries, s, 0);
      if i < |st.queries| then BodyAborts(cfg, st, i, received, env)
      else HeadAborts(cfg, st, s, received, header, env)
    case _ => false
  }

  ghost predicate BodyAborts(cfg: Config, st: State, i: nat, received: RecvResult, env: Env)
    requires Shape(cfg, st) && i < |st.queries|
  {
    var q := st.queries[i];
    match received
    case RecvWouldBlock => false
    case RecvClosed => !cfg.repaired || ConnectNextFails(cfg, st, q.turn.curr, env)
    case RecvFail => ConnectNextFails(cfg, st, q.turn.curr, env)
    case Bytes(rd) =>
      q.answer.Answer? && q.answer.len + rd >= q.answer.size && ResultFails(cfg, q.(code := CodeOk))
  }

  ghost predicate HeadAborts(cfg: Config, st: State, s: nat, received: RecvResult, header: Header, env: Env)
    requires Shape(cfg, st) && s < cfg.N()
  {
    || st.servers[s].headLen == TCP_HEADER
    || ((received.RecvClosed? || received.RecvFail?) && ConnectNextFails(cfg, st, s, env))
    || (received.Bytes? && st.servers[s].headLen + received.rd >= TCP_HEADER
        && FullHeadAborts(cfg, SetHeadLen(st, s, TCP_HEADER), s, header, env))
  }

  ghost predicate FullHeadAborts(cfg: Config, st: State, s: nat, header: Header, env: Env)
    requires Shape(cfg, st) && s < cfg.N()
  {
    var i := FirstWithId(st.queries, header.id, 0);
    if Unusable(cfg, st, s, header) then ConnectNextFails(cfg, st, s, env)
    else !st.queries[i].status.TcpHead? || HeadFails(cfg, st, i, header)
  }

  /** A read that leaves the header or the body incomplete. */
  ghost predicate PartialRead(st: State, e: Event) {
    && e.TcpReadable? && e.server < |st.servers| && e.received.Bytes?
    && e.received.rd < Requested(st, e.server)
  }

  /** The event gives some query a lower measure and none a higher one. */
  ghost predicate Advances(cfg: Config, a: State, b: State) {
    exists i :: 0 <= i < |a.queries| && Lower(cfg, a, b, [i])
  }

  ghost predicate Good(cfg: Config, a: State, o: Outcome) {
    o.Progress? ==> Inv(cfg, o.state) && Advances(cfg, a, o.state)
  }

  lemma SettledAll(cfg: Config, a: State, b: State, i: nat)
    requires Inv(cfg, a) && Core(cfg, b) && i < |a.queries| && Others(a, b, i) && Settled(b, i)
    requires Measure(cfg, b.queries[i]) < Measure(cfg, a.queries[i])
    ensures Good(cfg, a, Progress(b))
  {
    hide Consistent;
    OthersLower(cfg, a, b, i);
  }

  /** A counter above zero has a query behind it: the lists scanned for one are not empty. */
  lemma CounterWitness(cfg: Config, st: State, slot: Slot) returns (i: nat)
    requires Core(cfg, st) && SlotIn(cfg.N(), slot) && slot != Nowhere && Counter(st, slot) > 0
    ensures i < |st.queries| && SlotOf(cfg, st.queries[i]) == slot
  {
    i := CountWitness(cfg, st.queries, slot);
  }

  lemma BrokenGood(cfg: Config, st: State, s: nat, i: nat, env: Env)
    requires Inv(cfg, st) && s < cfg.N()
    requires i < |st.queries| && TcpStatus(st.queries[i].status) && st.queries[i].turn.curr == s
    ensures Affected(st.queries, s, |st.queries|) != []
    ensures Good(cfg, st, Broken(cfg, st, s, env))
    ensures Broken(cfg, st, s, env).Abort? <==> ConnectNextFails(cfg, st, s, env)
  {
    hide Consistent;
    ConnectNextInv(cfg, st, s, env);
    var list := Affected(st.queries, s, |st.queries|);
    assert i in list;
    assert Lower(cfg, st, ConnectNext(cfg, st, s, env), [i]);
  }

  lemma ResendGood(cfg: Config, st: State, i: nat, code: Code)
    requires Inv(cfg, st) && i < |st.queries| && (st.queries[i].status.UdpSend? || st.queries[i].status.UdpRecv?)
    requires !code.CodeVoid? && !code.CodeOk?
    ensures Good(cfg, st, Progress(Resend(cfg, st, i, code)))
  {
    hide Times, Consistent, Done, Want, SwitchElseFinish, Settled, Good;
    QueryFacts(cfg, st, i);
    var st1 := Done(cfg, st, i);
    DoneResult(cfg, st, i);
    SwitchCore(cfg, st1, i, code);
    var (st2, ok) := SwitchElseFinish(cfg, st1, i, code);
    OthersTrans(st, st1, st2, i);
    if ok {
      WantResult(cfg, st2, i, UdpSend);
      OthersTrans(st, st2, Want(cfg, st2, i, UdpSend), i);
    }
    SettledUdp(Resend(cfg, st, i, code), i);
    SettledAll(cfg, st, Resend(cfg, st, i, code), i);
  }

  lemma SettledUdp(st: State, i: nat)
    requires i < |st.queries| && (st.queries[i].status.UdpSend? || (st.queries[i].status.Void? && st.queries[i].finish))
    ensures Settled(st, i)
  {
  }

  lemma SentGood(cfg: Config, st: State, i: nat, s: Status)
    requires Inv(cfg, st) && i < |st.queries|
    requires (st.queries[i].status.UdpSend? && s.UdpRecv?) || (st.queries[i].status.TcpSend? && s.TcpHead?)
    ensures Good(cfg, st, Progress(Want(cfg, Done(cfg, st, i), i, s)))
  {
    hide Consistent, Done, Want;
    QueryFacts(cfg, st, i);
    var st1 := Done(cfg, st, i);
    DoneResult(cfg, st, i);
    WantResult(cfg, st1, i, s);
    OthersTrans(st, st1, Want(cfg, st1, i, s), i);
    assert Settled(st, i);
    SettledAll(cfg, st, Want(cfg, st1, i, s), i);
  }

  /** A truncated UDP answer: the same server is asked again over TCP. */
  lemma TruncatedGood(cfg: Config, st: State, i: nat, env: Env)
    requires Inv(cfg, st) && i < |st.queries| && st.queries[i].status.UdpRecv?
    ensures Good(cfg, st, Progress(WantConnect(cfg, Done(cfg, st, i), i, env, 0)))
  {
    hide Times, Consistent;
    QueryFacts(cfg, st, i);
    var st1 := Done(cfg, st, i);
    DoneResult(cfg, st, i);
    WantConnectCore(cfg, st1, i, env, 0);
    OthersTrans(st, st1, WantConnect(cfg, st1, i, env, 0), i);
    SettledAll(cfg, st, WantConnect(cfg, st1, i, env, 0), i);
  }

  lemma MoveOnGood(cfg: Config, st: State, i: nat, env: Env)
    requires Inv(cfg, st) && i < |st.queries| && TcpStatus(st.queries[i].status)
    ensures Good(cfg, st, Progress(MoveOn(cfg, st, i, CodeTimeout, env)))
  {
    hide Consistent;
    MoveOnCore(cfg, st, i, CodeTimeout, env);
    SettledAll(cfg, st, MoveOn(cfg, st, i, CodeTimeout, env), i);
  }

  lemma ConnectedGood(cfg: Config, st: State, s: nat, i: nat)
    requires Inv(cfg, st) && s < cfg.N() && i < |st.queries|
    requires st.queries[i].status.TcpConnect? && st.queries[i].turn.curr == s
    ensures Good(cfg, st, Progress(ConnectToWrite(cfg, st, s, 0)))
  {
    hide Times, Consistent;
    QueryFacts(cfg, st, i);
    var r := ConnectToWrite(cfg, st, s, 0);
    ConnectToWriteCore(cfg, st, s, 0);
    forall j | 0 <= j < |st.queries|
      ensures Settled(r, j) && Measure(cfg, r.queries[j]) <= Measure(cfg, st.queries[j])
    {
      assert Settled(st, j);
      CalmLower(cfg, st.queries[j], r.queries[j]);
    }
    assert AttemptsLeft(cfg, r.queries[i]) == AttemptsLeft(cfg, st.queries[i]);
    assert Lower(cfg, st, r, [i]);
  }

  /** The query stopped waiting and has a result. */
  lemma ResultGood(cfg: Config, st: State, i: nat, q: Query, env: Env)
    requires Inv(cfg, st) && i < |st.queries| && !st.queries[i].status.Void?
    requires QueryOk(cfg, q) && q.status.Void? && Live(q) && !q.code.CodeVoid?
    requires q.turn == st.queries[i].turn && q.search == st.queries[i].search
    ensures Good(cfg, st, Progress(QueryDone(cfg, Set(Done(cfg, st, i), i, q), i, env)))
  {
    hide Consistent, Done, QueryDone;
    var st1 := Done(cfg, st, i);
    DoneResult(cfg, st, i);
    UpdateCore(cfg, st1, i, q);
    assert AttemptsLeft(cfg, q) == AttemptsLeft(cfg, st.queries[i]);
    var st2 := Set(st1, i, q);
    QueryDoneCore(cfg, st2, i, env);
    OthersTrans(st, st2, QueryDone(cfg, st2, i, env), i);
    SettledAll(cfg, st, QueryDone(cfg, st2, i, env), i);
  }

  lemma UdpReadableGood(cfg: Config, st: State, family: Family, d: Datagram, env: Env)
    requires Inv(cfg, st)
    ensures Good(cfg, st, OnUdpReadable(cfg, st, family, d, env))
  {
    var o := OnUdpReadable(cfg, st, family, d, env);
    if o.Progress? {
      var i := FirstWithId(st.queries, d.id, 0);
      var q := st.queries[i].(status := Void, timer := NoTimer);
      var code := CheckAnswerFlags(d.flags, q.options.needRa);
      assert AttemptsLeft(cfg, q) == AttemptsLeft(cfg, st.queries[i]);
      if !code.CodeOk? {
        ResultOk(cfg, st.queries[i], q.(code := code));
        ResultGood(cfg, st, i, q.(code := code), env);
      } else if d.flags & MASK_TC != 0 {
        TruncatedGood(cfg, st, i, env);
      } else {
        var q' := q.(answer := Answer(d.size, d.size), code := CodeOk, rcode := d.rcode, tc := false);
        ResultOk(cfg, st.queries[i], q');
        ResultGood(cfg, st, i, q', env);
      }
    }
  }

  /** A query that stopped waiting, with its result stored. */
  lemma ResultOk(cfg: Config, a: Query, q: Query)
    requires QueryOk(cfg, a) && !a.status.Void?
    requires q.status.Void? && q.timer.NoTimer? && Live(q) && !q.code.CodeVoid? && AnswerOk(cfg, q)
    requires q.turn == a.turn && q.search == a.search && q.tries == a.tries
    ensures QueryOk(cfg, q)
  {
    assert AttemptsLeft(cfg, q) == AttemptsLeft(cfg, a);
  }

  /** The last bytes of a body: the same as stopping the wait and storing the whole answer. */
  lemma BodyComplete(cfg: Config, st: State, i: nat, rd: nat, env: Env)
    requires Inv(cfg, st) && i < |st.queries| && st.queries[i].status.TcpBody? && st.queries[i].answer.Answer?
    requires rd == st.queries[i].answer.size - st.queries[i].answer.len
    ensures var q := st.queries[i].(status := Void, timer := NoTimer, code := CodeOk,
                                    answer := Answer(st.queries[i].answer.size, st.queries[i].answer.size));
            OnBody(cfg, st, i, Bytes(rd), env)
            == if ResultFails(cfg, q) then Abort else Progress(QueryDone(cfg, Set(Done(cfg, st, i), i, q), i, env))
  {
    hide Consistent, QueryDone;
    var size := st.queries[i].answer.size;
    var q1 := st.queries[i].(answer := Answer(size, size));
    var q := q1.(status := Void, timer := NoTimer, code := CodeOk);
    var st1 := Set(st, i, q1);
    assert Done(cfg, st1, i).servers == Done(cfg, st, i).servers;
    assert Set(Done(cfg, st1, i), i, q).queries == Set(Done(cfg, st, i), i, q).queries;
    assert Done(cfg, st1, i).queries[i].(code := CodeOk) == q;
  }

  lemma BodyGood(cfg: Config, st: State, i: nat, received: RecvResult, env: Env)
    requires Inv(cfg, st) && i < |st.queries| && st.queries[i].status.TcpBody? && st.queries[i].answer.Answer?
    requires received.Bytes? ==> received.rd == st.queries[i].answer.size - st.queries[i].answer.len
    ensures Good(cfg, st, OnBody(cfg, st, i, received, env))
  {
    hide Times, Consistent, Done, QueryDone, ConnectNext;
    QueryFacts(cfg, st, i);
    match received
    case RecvWouldBlock =>
    case RecvClosed => BrokenGood(cfg, st, st.queries[i].turn.curr, i, env);
    case RecvFail => BrokenGood(cfg, st, st.queries[i].turn.curr, i, env);
    case Bytes(rd) =>
      var size := st.queries[i].answer.size;
      var q := st.queries[i].(status := Void, timer := NoTimer, code := CodeOk, answer := Answer(size, size));
      ResultOk(cfg, st.queries[i], q);
      ResultGood(cfg, st, i, q, env);
      BodyComplete(cfg, st, i, rd, env);
  }

  /** The first fourteen bytes are in: the answer belongs to query `i`. */
  lemma HeadGood(cfg: Config, st: State, i: nat, header: Header, env: Env)
    requires Inv(cfg, st) && i < |st.queries| && st.queries[i].status.TcpHead?
    requires MSG_LOW <= header.msgLen < 0x1_0000
    requires cfg.repaired ==> NoBodyBut(st, i)
    ensures Good(cfg, st, Progress(HeadAnswered(cfg, st, i, header, env)))
  {
    hide Times, Consistent, Done, Want;
    QueryFacts(cfg, st, i);
    var st2 := Done(cfg, st, i);
    DoneResult(cfg, st, i);
    var code := CheckAnswerFlags(header.flags, st.queries[i].options.needRa);
    if !code.CodeOk? {
      ResultOk(cfg, st.queries[i], st2.queries[i].(code := code));
      ResultGood(cfg, st, i, st2.queries[i].(code := code), env);
    } else {
      var q := st2.queries[i].(answer := Answer(header.msgLen, MSG_HEADER), rcode := header.rcode,
                               tc := header.flags & MASK_TC != 0);
      assert AttemptsLeft(cfg, q) == AttemptsLeft(cfg, st2.queries[i]);
      UpdateCore(cfg, st2, i, q);
      var st3 := Set(st2, i, q);
      assert CanWant(cfg, st3, i, TcpBody) by {
        assert forall j | 0 <= j < |st.queries| && j != i :: st3.queries[j] == st.queries[j];
      }
      WantResult(cfg, st3, i, TcpBody);
      OthersTrans(st, st3, Want(cfg, st3, i, TcpBody), i);
      assert Settled(st, i);
      SettledAll(cfg, st, Want(cfg, st3, i, TcpBody), i);
    }
  }
}
