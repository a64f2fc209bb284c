/** The resolver, its servers and its queries as the program keeps them: records updated
    in place through shared references. Every routine is proved against FsmModel and
    FsmSteps; the assertions inside the routines are the program's own. */
module Fsm {
  import opened Families
  import opened FsmInvariant
  import opened FsmModel
  import opened FsmRuns
  import opened FsmSteps
  import opened Limits
  import opened Rotation
  import opened RuliList

  class ResServer {
    var open: bool            // tcp_sd is a descriptor
    var tcpConnecters: int
    var tcpWriters: int
    var tcpReaders: int
    var tcpHeadLen: int

    ghost function View(): Server reads this {
      Server(open, tcpConnecters, tcpWriters, tcpReaders, tcpHeadLen)
    }

    constructor ()
      ensures View() == Server(false, 0, 0, 0, -1)
    {
      open, tcpConnecters, tcpWriters, tcpReaders, tcpHeadLen := false, 0, 0, 0, -1;
    }
  }

  class ResQuery {
    var resolverIndex: nat
    var queryId: nat
    var status: Status
    var firstServer: nat
    var currServer: nat
    var remainingRetries: int
    var searchIndex: int
    var answerCode: Code
    var answer: Answer
    var headerRcode: nat
    var headerTc: bool
    var timer: Timer
    var finishScheduled: bool
    ghost var calls: nat
    ghost var tries: nat
    const options: Options

    ghost function View(): Query reads this {
      Query(queryId, status, Turn(currServer, firstServer, remainingRetries), searchIndex, answerCode, timer,
            finishScheduled, calls, tries, answer, headerRcode, headerTc, options)
    }

    /** The fields a submit sets. */
    constructor (index: nat, id: nat, server: nat, retry: int, options: Options)
      ensures resolverIndex == index
      ensures View() == Query(id, Void, Turn(server, server, retry), -1, CodeVoid, NoTimer,
                              false, 0, 0, NoAnswer, 0, false, options)
    {
      resolverIndex, queryId, status := index, id, Void;
      firstServer, currServer, remainingRetries, searchIndex := server, server, retry, -1;
      answerCode, answer, headerRcode, headerTc := CodeVoid, NoAnswer, 0, false;
      timer, finishScheduled, calls, tries := NoTimer, false, 0, 0;
      this.options := options;
    }

    method Store(answer: Answer, code: Code, rcode: nat, tc: bool)
      modifies this
      ensures resolverIndex == old(resolverIndex)
      ensures View() == old(View()).(answer := answer, code := code, rcode := rcode, tc := tc)
    {
      this.answer := answer;
      answerCode := code;
      headerRcode := rcode;
      headerTc := tc;
    }

    /** A suffix of the given length is appended to the name: start over, unless the name
        gets too long or the query cannot be started. `aborted`: one of the two names fills
        the limit of a name. */
    method NextSuffix(retry: int, suffix: nat, startOk: bool) returns (aborted: bool)
      modifies this
      ensures resolverIndex == old(resolverIndex)
      ensures aborted <==> JoinLengths(options.nameLen, suffix, DNAME_ENCODED).Asserts?
      ensures var v := old(View()).(search := old(View()).search + 1);
              var restarted := v.(answer := NoAnswer, code := CodeVoid, turn := Turn(v.turn.curr, v.turn.curr, retry));
              !aborted ==>
                View() == if JoinLengths(options.nameLen, suffix, DNAME_ENCODED).TooLong?
                          then Call(v.(code := CodeConcatSearchList))
                          else if startOk then restarted.(tries := v.tries + 1)
                          else Call(restarted.(code := CodeLaunchSearchList))
    {
      searchIndex := searchIndex + 1;
      var join := JoinLengths(options.nameLen, suffix, DNAME_ENCODED);
      aborted := join == Asserts;
      if join != Joins {
        answerCode := CodeConcatSearchList;
        calls := calls + 1;
        return;
      }
      answer := NoAnswer;
      answerCode := CodeVoid;
      remainingRetries := retry;
      firstServer := currServer;
      if startOk {
        tries := tries + 1;
      } else {
        answerCode := CodeLaunchSearchList;
        calls := calls + 1;
      }
    }
  }

  /** The values of the query records, and of the server records. */
  ghost function QueryViews(qs: seq<ResQuery>): (r: seq<Query>)
    reads qs
    ensures |r| == |qs| && forall i | 0 <= i < |qs| :: r[i] == qs[i].View()
  {
    seq(|qs|, i requires 0 <= i < |qs| reads qs => qs[i].View())
  }

  ghost function ServerViews(ss: seq<ResServer>): (r: seq<Server>)
    reads ss
    ensures |r| == |ss| && forall i | 0 <= i < |ss| :: r[i] == ss[i].View()
  {
    seq(|ss|, i requires 0 <= i < |ss| reads ss => ss[i].View())
  }

  class Resolver {
    const cfg: Config
    const serverList: seq<ResServer>
    var queryList: seq<ResQuery>
    var udpWriters: int
    var udpReaders: int
    var udp6Writers: int
    var udp6Readers: int
    var nextServer: nat
    var nextQueryId: nat

    /** One record per configured name server, none of them connected. */
    constructor (cfg: Config)
      requires cfg.Ok()
      ensures this.cfg == cfg && Valid() && Initial(cfg, Abs()) && fresh(serverList)
    {
      var list: seq<ResServer> := [];
      for i := 0 to cfg.N()
        invariant |list| == i && fresh(list)
        invariant forall k | 0 <= k < i :: list[k].View() == Server(false, 0, 0, 0, -1)
        invariant forall k, l | 0 <= k < l < i :: list[k] != list[l]
      {
        var server := new ResServer();
        list := list + [server];
      }
      this.cfg, serverList, queryList := cfg, list, [];
      udpWriters, udpReaders, udp6Writers, udp6Readers, nextServer, nextQueryId := 0, 0, 0, 0, 0, 0;
      new;
      InitialInv(cfg, Abs());
    }

    /** Every query knows its own position: no query is listed twice. */
    ghost predicate Wired() reads this, queryList {
      && |serverList| == cfg.N()
      && (forall i, j | 0 <= i < j < |serverList| :: serverList[i] != serverList[j])
      && forall i | 0 <= i < |queryList| :: queryList[i].resolverIndex == i
    }

    ghost function Abs(): State reads this, queryList, serverList {
      State(QueryViews(queryList), ServerViews(serverList),
            udpWriters, udpReaders, udp6Writers, udp6Readers, nextServer, nextQueryId)
    }

    /** Holds between events. */
    ghost predicate Valid() reads this, queryList, serverList {
      Wired() && Inv(cfg, Abs())
    }

    /** Holds between single status changes. */
    ghost predicate Steady() reads this, queryList, serverList {
      Wired() && Core(cfg, Abs())
    }

    /** One query record was updated and no other. */
    twostate lemma QueryChanged(q: ResQuery)
      requires old(Wired()) && queryList == old(queryList) && q in queryList
      requires q.resolverIndex == old(q.resolverIndex)
      requires forall o | o in queryList && o != q :: unchanged(o)
      ensures Wired()
      ensures QueryViews(queryList) == old(QueryViews(queryList))[q.resolverIndex := q.View()]
    {
      var k :| 0 <= k < |queryList| && queryList[k] == q;
      assert old(q.resolverIndex) == k;
      forall i | 0 <= i < |queryList| && i != k
        ensures unchanged(queryList[i])
      {
        assert old(queryList[i].resolverIndex) == i && queryList[i] in queryList;
      }
    }

    /** One server record was updated and no other. */
    twostate lemma ServerChanged(s: nat)
      requires old(Wired()) && s < |serverList|
      requires forall o | o in serverList && o != serverList[s] :: unchanged(o)
      ensures ServerViews(serverList) == old(ServerViews(serverList))[s := serverList[s].View()]
    {
      forall i | 0 <= i < |serverList| && i != s
        ensures unchanged(serverList[i])
      {
        assert serverList[i] in serverList;
      }
    }

    // ------------------------------------------------------ want and done

    lemma DoneStep(q: ResQuery)
      requires Steady() && q in queryList
      ensures Shape(cfg, Abs()) && q.currServer < cfg.N() && q.timer == TimerFor(q.status)
      ensures Core(cfg, Done(cfg, Abs(), q.resolverIndex))
      ensures var slot := SlotFor(cfg, q.status, q.currServer); slot != Nowhere ==> Counter(Abs(), slot) > 0
    {
      hide Consistent;
      DoneCore(cfg, Abs(), q.resolverIndex);
      TimerFacts(cfg, Abs(), q.resolverIndex);
    }

    lemma WantStep(q: ResQuery, s: Status)
      requires Steady() && q in queryList && CanWant(cfg, Abs(), q.resolverIndex, s)
      ensures Shape(cfg, Abs()) && q.currServer < cfg.N() && q.status == Void && q.timer == NoTimer
      ensures var slot := SlotFor(cfg, s, q.currServer); slot != Nowhere ==> Counter(Abs(), slot) >= 0
      ensures Core(cfg, Want(cfg, Abs(), q.resolverIndex, s))
    {
      hide Consistent;
      WantCore(cfg, Abs(), q.resolverIndex, s);
      TimerFacts(cfg, Abs(), q.resolverIndex);
      CounterNonNegative(cfg, Abs(), SlotFor(cfg, s, q.currServer));
    }

    method QueryWantWriteUdp(q: ResQuery)
      requires Steady() && q in queryList && CanWant(cfg, Abs(), q.resolverIndex, UdpSend)
      modifies this`udpWriters, this`udp6Writers, q
      ensures Steady() && Abs() == Want(cfg, old(Abs()), q.resolverIndex, UdpSend)
    {
      hide Core, Consistent, CanWant;
      WantStep(q, UdpSend);
      assert q.status == Void;
      match cfg.families[q.currServer] {
        case Inet =>
          assert udpWriters >= 0;
          udpWriters := udpWriters + 1;
        case Inet6 =>
          assert udp6Writers >= 0;
          udp6Writers := udp6Writers + 1;
      }
      q.status := UdpSend;
      QueryChanged(q);
      assert Abs() == Want(cfg, old(Abs()), q.resolverIndex, UdpSend);
    }

    method QueryDoneWriteUdp(q: ResQuery)
      requires Steady() && q in queryList && q.status == UdpSend
      modifies this`udpWriters, this`udp6Writers, q
      ensures Steady() && Abs() == Done(cfg, old(Abs()), q.resolverIndex)
    {
      hide Core, Consistent, CanWant;
      DoneStep(q);
      match cfg.families[q.currServer] {
        case Inet =>
          assert udpWriters > 0;
          udpWriters := udpWriters - 1;
        case Inet6 =>
          assert udp6Writers > 0;
          udp6Writers := udp6Writers - 1;
      }
      q.status := Void;
      QueryChanged(q);
      assert Abs() == Done(cfg, old(Abs()), q.resolverIndex);
    }

    method QueryWantReadUdp(q: ResQuery)
      requires Steady() && q in queryList && CanWant(cfg, Abs(), q.resolverIndex, UdpRecv)
      modifies this`udpReaders, this`udp6Readers, q
      ensures Steady() && Abs() == Want(cfg, old(Abs()), q.resolverIndex, UdpRecv)
    {
      hide Core, Consistent, CanWant;
      WantStep(q, UdpRecv);
      assert q.status == Void;
      match cfg.families[q.currServer] {
        case Inet =>
          assert udpReaders >= 0;
          udpReaders := udpReaders + 1;
        case Inet6 =>
          assert udp6Readers >= 0;
          udp6Readers := udp6Readers + 1;
      }
      q.timer := UdpReadTimer;
      q.status := UdpRecv;
      QueryChanged(q);
      assert Abs() == Want(cfg, old(Abs()), q.resolverIndex, UdpRecv);
    }

    method QueryDoneReadUdp(q: ResQuery)
      requires Steady() && q in queryList && q.status == UdpRecv
      modifies this`udpReaders, this`udp6Readers, q
      ensures Steady() && Abs() == Done(cfg, old(Abs()), q.resolverIndex)
    {
      hide Core, Consistent, CanWant;
      DoneStep(q);
      match cfg.families[q.currServer] {
        case Inet =>
          assert udpReaders > 0;
          udpReaders := udpReaders - 1;
        case Inet6 =>
          assert udp6Readers > 0;
          udp6Readers := udp6Readers - 1;
      }
      q.timer := NoTimer;
      q.status := Void;
      QueryChanged(q);
      assert Abs() == Done(cfg, old(Abs()), q.resolverIndex);
    }

    method QueryWantWriteTcp(q: ResQuery)
      requires Steady() && q in queryList && CanWant(cfg, Abs(), q.resolverIndex, TcpSend)
      modifies serverList, q
      ensures Steady() && Abs() == Want(cfg, old(Abs()), q.resolverIndex, TcpSend)
    {
      hide Core, Consistent, CanWant;
      WantStep(q, TcpSend);
      assert q.status == Void;
      var server := serverList[q.currServer];
      assert server.tcpWriters >= 0;
      server.tcpWriters := server.tcpWriters + 1;
      q.status := TcpSend;
      QueryChanged(q);
      ServerChanged(q.currServer);
      assert Abs() == Want(cfg, old(Abs()), q.resolverIndex, TcpSend);
    }

    method QueryDoneWriteTcp(q: ResQuery)
      requires Steady() && q in queryList && q.status == TcpSend
      modifies serverList, q
      ensures Steady() && Abs() == Done(cfg, old(Abs()), q.resolverIndex)
    {
      hide Core, Consistent, CanWant;
      DoneStep(q);
      var server := serverList[q.currServer];
      assert server.tcpWriters > 0;
      server.tcpWriters := server.tcpWriters - 1;
      q.status := Void;
      QueryChanged(q);
      ServerChanged(q.currServer);
      assert Abs() == Done(cfg, old(Abs()), q.resolverIndex);
    }

    method QueryWantReadTcpHead(q: ResQuery)
      requires Steady() && q in queryList && CanWant(cfg, Abs(), q.resolverIndex, TcpHead)
      modifies serverList, q
      ensures Steady() && Abs() == Want(cfg, old(Abs()), q.resolverIndex, TcpHead)
    {
      hide Core, Consistent, CanWant;
      WantStep(q, TcpHead);
      assert q.status == Void;
      var server := serverList[q.currServer];
      assert server.tcpReaders >= 0;
      server.tcpReaders := server.tcpReaders + 1;
      server.tcpHeadLen := 0;
      q.timer := TcpHeadTimer;
      q.status := TcpHead;
      QueryChanged(q);
      ServerChanged(q.currServer);
      assert Abs() == Want(cfg, old(Abs()), q.resolverIndex, TcpHead);
    }

    method QueryDoneReadTcpHead(q: ResQuery)
      requires Steady() && q in queryList && q.status == TcpHead
      modifies serverList, q
      ensures Steady() && Abs() == Done(cfg, old(Abs()), q.resolverIndex)
    {
      hide Core, Consistent, CanWant;
      DoneStep(q);
      var server := serverList[q.currServer];
      assert server.tcpReaders > 0;
      q.timer := NoTimer;
      server.tcpReaders := server.tcpReaders - 1;
      q.status := Void;
      QueryChanged(q);
      ServerChanged(q.currServer);
      assert Abs() == Done(cfg, old(Abs()), q.resolverIndex);
    }

    method QueryWantReadTcpBody(q: ResQuery)
      requires Steady() && q in queryList && CanWant(cfg, Abs(), q.resolverIndex, TcpBody)
      requires q.currServer < cfg.N() && serverList[q.currServer].tcpHeadLen == TCP_HEADER
      modifies serverList, q
      ensures Steady() && Abs() == Want(cfg, old(Abs()), q.resolverIndex, TcpBody)
    {
      hide Core, Consistent, CanWant;
      WantStep(q, TcpBody);
      assert q.status == Void;
      var server := serverList[q.currServer];
      assert server.tcpReaders >= 0;
      assert server.tcpHeadLen == TCP_HEADER;
      server.tcpReaders := server.tcpReaders + 1;
      q.timer := TcpBodyTimer;
      q.status := TcpBody;
      QueryChanged(q);
      ServerChanged(q.currServer);
      assert Abs() == Want(cfg, old(Abs()), q.resolverIndex, TcpBody);
    }

    method QueryDoneReadTcpBody(q: ResQuery)
      requires Steady() && q in queryList && q.status == TcpBody
      modifies serverList, q
      ensures Steady() && Abs() == Done(cfg, old(Abs()), q.resolverIndex)
    {
      hide Core, Consistent, CanWant;
      DoneStep(q);
      var server := serverList[q.currServer];
      assert server.tcpReaders > 0;
      q.timer := NoTimer;
      server.tcpReaders := server.tcpReaders - 1;
      q.status := Void;
      QueryChanged(q);
      ServerChanged(q.currServer);
      assert Abs() == Done(cfg, old(Abs()), q.resolverIndex);
    }

    method QueryWaitConnectTcp(q: ResQuery)
      requires Steady() && q in queryList && CanWant(cfg, Abs(), q.resolverIndex, TcpConnect)
      modifies serverList, q
      ensures Steady() && Abs() == Want(cfg, old(Abs()), q.resolverIndex, TcpConnect)
    {
      hide Core, Consistent, CanWant;
      WantStep(q, TcpConnect);
      assert q.status == Void;
      var server := serverList[q.currServer];
      assert server.tcpConnecters >= 0;
      server.tcpConnecters := server.tcpConnecters + 1;
      q.status := TcpConnect;
      QueryChanged(q);
      ServerChanged(q.currServer);
      assert Abs() == Want(cfg, old(Abs()), q.resolverIndex, TcpConnect);
    }

    method QueryDoneConnectTcp(q: ResQuery)
      requires Steady() && q in queryList && q.status == TcpConnect
      modifies serverList, q
      ensures Steady() && Abs() == Done(cfg, old(Abs()), q.resolverIndex)
    {
      hide Core, Consistent, CanWant;
      DoneStep(q);
      var server := serverList[q.currServer];
      assert server.tcpConnecters > 0;
      server.tcpConnecters := server.tcpConnecters - 1;
      q.status := Void;
      QueryChanged(q);
      ServerChanged(q.currServer);
      assert Abs() == Done(cfg, old(Abs()), q.resolverIndex);
    }

    /** The clean-up of whatever status the query is in. Only where the program is repaired
        does a query waiting to send over TCP get the routine that fits it; that of a UDP
        read fails its first assertion. */
    method QueryStatusDone(q: ResQuery) returns (aborted: bool)
      requires Steady() && q in queryList
      modifies this`udpWriters, this`udp6Writers, this`udpReaders, this`udp6Readers, serverList, q
      ensures aborted <==> !cfg.repaired && old(q.status) == TcpSend
      ensures Steady() && (!aborted ==> Abs() == Done(cfg, old(Abs()), q.resolverIndex))
    {
      aborted := false;
      match q.status {
        case Void => QueryAlreadyVoid(q);
        case UdpSend => QueryDoneWriteUdp(q);
        case UdpRecv => QueryDoneReadUdp(q);
        case TcpConnect => QueryDoneConnectTcp(q);
        case TcpSend =>
          if cfg.repaired {
            QueryDoneWriteTcp(q);
          } else {
            aborted := true;
          }
        case TcpHead => QueryDoneReadTcpHead(q);
        case TcpBody => QueryDoneReadTcpBody(q);
      }
    }

    /** The clean-up of a TCP status, with the routine that fits it. */
    method TcpStatusDone(q: ResQuery)
      requires Steady() && q in queryList && TcpStatus(q.status)
      modifies serverList, q
      ensures Steady() && Abs() == Done(cfg, old(Abs()), q.resolverIndex)
    {
      match q.status {
        case TcpConnect => QueryDoneConnectTcp(q);
        case TcpSend => QueryDoneWriteTcp(q);
        case TcpHead => QueryDoneReadTcpHead(q);
        case TcpBody => QueryDoneReadTcpBody(q);
      }
    }

    lemma QueryAlreadyVoid(q: ResQuery)
      requires Steady() && q in queryList && q.status == Void
      ensures Abs() == Done(cfg, Abs(), q.resolverIndex)
    {
      hide Consistent;
      TimerFacts(cfg, Abs(), q.resolverIndex);
      assert Abs().queries == Done(cfg, Abs(), q.resolverIndex).queries;
    }

    // --------------------------------------------------- switching servers

    /** Nonzero in the program when no switch is left. */
    method SwitchServer(q: ResQuery) returns (ok: bool)
      requires Wired() && q in queryList && TurnOk(cfg.N(), q.View().turn)
      modifies q
      ensures Wired() && q.resolverIndex == old(q.resolverIndex)
      ensures q.View() == old(q.View()).(turn := Switch(cfg.N(), old(q.View()).turn).0)
      ensures ok == Switch(cfg.N(), old(q.View()).turn).1
    {
      q.currServer := Following(cfg.N(), q.currServer);
      if q.currServer == q.firstServer {
        if q.remainingRetries < 1 {
          return false;
        }
        q.remainingRetries := q.remainingRetries - 1;
      }
      return true;
    }

    /** `aborted`: no switch is left, and the buffer of an unfinished body is. */
    method SwitchElseScheduleFinish(q: ResQuery, code: Code) returns (ok: bool, aborted: bool)
      requires Steady() && q in queryList && CanWant(cfg, Abs(), q.resolverIndex, TcpSend)
      requires !code.CodeVoid? && !code.CodeOk?
      modifies q
      ensures ShapeOf(cfg, old(Abs()), |queryList|) && q.resolverIndex == old(q.resolverIndex)
      ensures aborted <==> !SwitchElseFinish(cfg, old(Abs()), q.resolverIndex, code).1 && old(q.answer).Answer?
      ensures !aborted ==> Steady() && (Abs(), ok) == SwitchElseFinish(cfg, old(Abs()), q.resolverIndex, code)
      ensures ok ==> !aborted && q.answer == old(q.answer) && CanWant(cfg, Abs(), q.resolverIndex, TcpSend)
      ensures ok && old(CanWant(cfg, Abs(), q.resolverIndex, UdpSend)) ==> CanWant(cfg, Abs(), q.resolverIndex, UdpSend)
    {
      hide Core, Consistent;
      ghost var a := Abs();
      SwitchStep(q, code);
      assert q.status == Void;
      ok := SwitchServer(q);
      aborted := false;
      if !ok {
        if q.answer != NoAnswer {
          return false, true;
        }
        assert q.answerCode == CodeVoid;
        q.answerCode := code;
        q.finishScheduled := true;
      } else {
        q.tries := q.tries + 1;
      }
      QueryChanged(q);
      assert Abs() == SwitchElseFinish(cfg, a, q.resolverIndex, code).0;
    }

    lemma SwitchStep(q: ResQuery, code: Code)
      requires Steady() && q in queryList && CanWant(cfg, Abs(), q.resolverIndex, TcpSend)
      requires !code.CodeVoid? && !code.CodeOk?
      ensures Shape(cfg, Abs())
      ensures var (r, ok) := SwitchElseFinish(cfg, Abs(), q.resolverIndex, code);
              && Core(cfg, r) && (ok ==> CanWant(cfg, r, q.resolverIndex, TcpSend))
              && (ok && CanWant(cfg, Abs(), q.resolverIndex, UdpSend) ==> CanWant(cfg, r, q.resolverIndex, UdpSend))
    {
      hide Consistent;
      SwitchCore(cfg, Abs(), q.resolverIndex, code);
    }

    // ----------------------------------------------------- TCP connections

    method SetServerOpen(s: nat, open: bool)
      requires Steady() && s < cfg.N()
      modifies serverList
      ensures Steady() && Abs() == SetOpen(old(Abs()), s, open)
    {
      hide Core, Consistent;
      SetOpenStep(s, open);
      serverList[s].open := open;
      ServerChanged(s);
      assert Abs() == SetOpen(old(Abs()), s, open);
    }

    lemma SetOpenStep(s: nat, open: bool)
      requires Steady() && s < cfg.N()
      ensures Core(cfg, SetOpen(Abs(), s, open))
    {
      SetOpenCore(cfg, Abs(), s, open);
    }

    /** Queries waiting for the connection to `s` wait to send on it instead. True when the
        assertion of the scan fails. */
    method QueriesTcpConnectToWrite(s: nat) returns (aborted: bool)
      requires Steady() && s < cfg.N()
      modifies queryList, serverList
      ensures Steady() && (aborted <==> !ScanHolds(old(Abs())))
      ensures !aborted ==> Abs() == ConnectToWrite(cfg, old(Abs()), s, 0)
    {
      hide Core, Consistent, ConnectToWrite, ScanHolds, ScannedTo;
      ghost var goal := ConnectToWriteGoal(s, 0);
      ScanEnds(Abs());
      for j := 0 to |queryList|
        invariant Steady() && ConnectToWriteGoal(s, j) == goal
        invariant ScannedTo(Abs(), j) && (ScanHolds(Abs()) <==> ScanHolds(old(Abs())))
      {
        aborted := WriteRound(j, s);
        if aborted {
          return;
        }
      }
      WriteStep(|queryList|, s);
      ScanEnds(Abs());
      aborted := false;
    }

    method WriteRound(j: nat, s: nat) returns (aborted: bool)
      requires Steady() && s < cfg.N() && j < |queryList| && ScannedTo(Abs(), j)
      modifies queryList, serverList
      ensures Steady() && (aborted ==> !ScanHolds(old(Abs())))
      ensures !aborted ==>
                && ConnectToWriteGoal(s, j + 1) == old(ConnectToWriteGoal(s, j))
                && ScannedTo(Abs(), j + 1) && (ScanHolds(Abs()) <==> ScanHolds(old(Abs())))
    {
      hide Core, Consistent, Done, Want, ConnectToWrite, ScanHolds, ScannedTo;
      CoreShape();
      WriteStep(j, s);
      WriteScan(cfg, Abs(), j);
      var q := queryList[j];
      if q.status == TcpConnect {
        if !serverList[q.currServer].open {
          return true;
        }
        if q.currServer == s {
          QueryDoneConnectTcp(q);
          QueryWantWriteTcp(q);
        }
      }
      aborted := false;
    }

    ghost function ConnectToWriteGoal(s: nat, j: nat): State
      requires Steady() && s < cfg.N()
      reads this, queryList, serverList
    {
      CoreShape();
      ConnectToWrite(cfg, Abs(), s, j)
    }

    lemma CoreShape()
      requires Steady()
      ensures Shape(cfg, Abs())
    {
      hide Consistent;
    }

    /** One round of the scan for queries waiting for the connection. */
    lemma WriteStep(j: nat, s: nat)
      requires Steady() && s < cfg.N() && j <= |queryList|
      ensures j == |queryList| ==> ConnectToWriteGoal(s, j) == Abs()
      ensures j < |queryList| ==>
                var q := queryList[j];
                if q.status == TcpConnect && q.currServer == s then
                  && ShapeOf(cfg, Done(cfg, Abs(), j), |queryList|)
                  && CanWant(cfg, Done(cfg, Abs(), j), j, TcpSend)
                  && Shape(cfg, Want(cfg, Done(cfg, Abs(), j), j, TcpSend))
                  && ConnectToWriteGoal(s, j)
                     == ConnectToWrite(cfg, Want(cfg, Done(cfg, Abs(), j), j, TcpSend), s, j + 1)
                else ConnectToWriteGoal(s, j) == ConnectToWrite(cfg, Abs(), s, j + 1)
    {
      hide Consistent, Done, Want;
      if j < |queryList| && queryList[j].status == TcpConnect && queryList[j].currServer == s {
        QueryFacts(cfg, Abs(), j);
        DoneShape(cfg, Abs(), j);
        WantShape(cfg, Done(cfg, Abs(), j), j, TcpSend);
      }
    }

    /** Scans servers from the current one, connecting where no connection is open. */
    method QueryWantConnectTcp(q: ResQuery, env: Env) returns (aborted: bool)
      requires Steady() && q in queryList && CanWant(cfg, Abs(), q.resolverIndex, TcpSend)
      modifies queryList, serverList
      ensures Shape(cfg, old(Abs())) && q.resolverIndex == old(q.resolverIndex)
      ensures aborted <==> ScanAborts(cfg, old(Abs()), q.resolverIndex, env, 0)
      ensures !aborted ==> Steady() && Abs() == WantConnect(cfg, old(Abs()), q.resolverIndex, env, 0)
    {
      hide Core, Consistent, Want, CanWant, Attempt, SwitchesLeft, WantConnect, ScanAborts, ScanHolds, AttemptFails;
      ghost var i := q.resolverIndex;
      CoreShape();
      var k := 0;
      ghost var goal, fails := WantConnect(cfg, Abs(), i, env, 0), ScanAborts(cfg, Abs(), i, env, 0);
      while true
        invariant Steady() && q.resolverIndex == i && Shape(cfg, Abs()) && CanWant(cfg, Abs(), i, TcpSend)
        invariant WantConnect(cfg, Abs(), i, env, k) == goal && (ScanAborts(cfg, Abs(), i, env, k) <==> fails)
        decreases SwitchesLeft(cfg.N(), q.View().turn)
      {
        ConnectStep(q);
        ScanStep(cfg, Abs(), i, env, k);
        assert q.status == Void;
        if serverList[q.currServer].open {
          QueryWantWriteTcp(q);
          return false;
        }
        var again;
        again, aborted := ConnectOnce(q, env.connect(q.resolverIndex, k));
        if aborted || !again {
          return;
        }
        k := k + 1;
      }
    }

    /** One attempt to connect to the current server: whether the next one is to be tried,
        and whether an assertion fails. */
    method ConnectOnce(q: ResQuery, result: Connect) returns (again: bool, aborted: bool)
      requires Steady() && q in queryList && CanWant(cfg, Abs(), q.resolverIndex, TcpSend)
      modifies queryList, serverList
      ensures q.resolverIndex == old(q.resolverIndex) && Shape(cfg, old(Abs()))
      ensures aborted <==> AttemptFails(cfg, old(Abs()), q.resolverIndex, result)
      ensures !aborted ==>
                && Steady() && Shape(cfg, Abs())
                && (Abs(), again) == Attempt(cfg, old(Abs()), q.resolverIndex, result)
                && (again ==> CanWant(cfg, Abs(), q.resolverIndex, TcpSend))
    {
      hide Core, Consistent, Done, Want, CanWant, SwitchElseFinish, ConnectToWrite, ScanHolds;
      CoreShape();
      ConnectStep(q);
      again, aborted := false, false;
      if result != NoSocket {
        SetServerOpen(q.currServer, true);
      }
      if result == Immediate {
        var s := q.currServer;
        QueryWantWriteTcp(q);
        aborted := QueriesTcpConnectToWrite(s);
      } else if result == InProgress {
        QueryWaitConnectTcp(q);
      } else {
        SwitchOpened(cfg, old(Abs()), q.resolverIndex);
        again, aborted := SwitchElseScheduleFinish(q, CodeConnect);
        if aborted {
          return;
        }
      }
      CoreShape();
    }

    lemma ConnectStep(q: ResQuery)
      requires Steady() && q in queryList && CanWant(cfg, Abs(), q.resolverIndex, TcpSend)
      ensures q.currServer < cfg.N() && q.status == Void && TurnOk(cfg.N(), q.View().turn)
      ensures var a, b := Abs(), SetOpen(Abs(), q.currServer, true);
              forall s: Status | TcpStatus(s) && !s.TcpBody? ::
                CanWant(cfg, a, q.resolverIndex, s) && CanWant(cfg, b, q.resolverIndex, s)
    {
      hide Consistent;
    }

    method ReleaseAnswer(q: ResQuery)
      requires Steady() && q in queryList && q.status == Void && q.answerCode == CodeVoid
      modifies q
      ensures Steady() && Abs() == Release(old(Abs()), q.resolverIndex)
    {
      hide Core, Consistent;
      ReleaseStep(q);
      q.answer := NoAnswer;
      QueryChanged(q);
      assert Abs() == Release(old(Abs()), q.resolverIndex);
    }

    lemma ReleaseStep(q: ResQuery)
      requires Steady() && q in queryList && q.status == Void && q.answerCode == CodeVoid
      ensures Core(cfg, Release(Abs(), q.resolverIndex))
    {
      hide Consistent;
      ReleaseCore(cfg, Abs(), q.resolverIndex);
    }

    /** The query stopped waiting on a connection: next server, or finish with `code`. */
    method TcpSwitch(q: ResQuery, code: Code, env: Env) returns (aborted: bool)
      requires Steady() && q in queryList && CanWant(cfg, Abs(), q.resolverIndex, TcpSend)
      requires !code.CodeVoid? && !code.CodeOk?
      modifies queryList, serverList
      ensures Shape(cfg, old(Abs())) && q.resolverIndex == old(q.resolverIndex)
      ensures var (st1, ok) := SwitchElseFinish(cfg, old(Abs()), q.resolverIndex, code);
              && (aborted <==> (ok && WantConnectFails(cfg, st1, q.resolverIndex, env, 0))
                               || (old(q.answer).Answer? && (ok ==> RunsOut(cfg, st1, q.resolverIndex, env, 0))))
              && (!aborted ==> Steady() && Abs() == if ok then WantConnect(cfg, st1, q.resolverIndex, env, 0) else st1)
    {
      hide Core, Consistent, Done, Want, CanWant, SwitchElseFinish, WantConnect, WantConnectFails, RunsOut;
      CoreShape();
      var ok;
      ok, aborted := SwitchElseScheduleFinish(q, code);
      if ok {
        aborted := QueryWantConnectTcp(q, env);
      }
    }

    /** A query in a TCP status gives up its server. */
    method QueryMoveOn(q: ResQuery, code: Code, env: Env) returns (aborted: bool)
      requires Steady() && q in queryList && TcpStatus(q.status)
      requires !code.CodeVoid? && !code.CodeOk?
      modifies queryList, serverList
      ensures Shape(cfg, old(Abs())) && q.resolverIndex == old(q.resolverIndex)
      ensures aborted <==> MoveOnFails(cfg, old(Abs()), q.resolverIndex, code, env)
      ensures !aborted ==> Steady() && Abs() == MoveOn(cfg, old(Abs()), q.resolverIndex, code, env)
    {
      hide Core, Consistent, Leave, CanWant, SwitchElseFinish, WantConnect, WantConnectFails, RunsOut;
      CoreShape();
      MoveStep(q, code);
      LeaveTcp(q);
      assert q.status == Void;
      aborted := TcpSwitch(q, code, env);
    }

    /** Stops waiting; the buffer is freed only where the program is repaired. */
    method LeaveTcp(q: ResQuery)
      requires Steady() && q in queryList && TcpStatus(q.status) && Shape(cfg, Abs())
      modifies queryList, serverList
      ensures Steady() && q.resolverIndex == old(q.resolverIndex) && Abs() == Leave(cfg, old(Abs()), q.resolverIndex)
      ensures q.status == Void
    {
      hide Core, Consistent, Done;
      LeaveFacts(q);
      TcpStatusDone(q);
      if cfg.repaired {
        ReleaseAnswer(q);
      }
    }

    lemma LeaveFacts(q: ResQuery)
      requires Steady() && q in queryList && TcpStatus(q.status)
      ensures Shape(cfg, Abs()) && ShapeOf(cfg, Done(cfg, Abs(), q.resolverIndex), |queryList|) && q.answerCode == CodeVoid
      ensures Done(cfg, Abs(), q.resolverIndex).queries[q.resolverIndex] == q.View().(status := Void, timer := NoTimer)
    {
      hide Consistent, Done;
      QueryFacts(cfg, Abs(), q.resolverIndex);
      DoneShape(cfg, Abs(), q.resolverIndex);
    }

    lemma MoveStep(q: ResQuery, code: Code)
      requires Steady() && q in queryList && TcpStatus(q.status)
      ensures var i := q.resolverIndex;
              && ShapeOf(cfg, Leave(cfg, Abs(), i), |queryList|)
              && CanWant(cfg, Leave(cfg, Abs(), i), i, TcpSend)
              && SwitchElseFinish(cfg, Leave(cfg, Abs(), i), i, code).0.queries[i].answer
                 == Leave(cfg, Abs(), i).queries[i].answer
    {
      hide Consistent, Leave;
      LeaveCore(cfg, Abs(), q.resolverIndex);
    }

    /** Connection `s` failed: close it, and move every query using it to its next server. */
    method QueriesConnectNext(s: nat, env: Env) returns (aborted: bool)
      requires Valid() && s < cfg.N() && Affected(Abs().queries, s, |queryList|) != []
      modifies queryList, serverList
      ensures Shape(cfg, old(Abs()))
      ensures Follows(Broken(cfg, old(Abs()), s, env), old(Abs()), Abs(), aborted)
      ensures !aborted ==> Valid()
    {
      hide Core, Consistent, Inv, Broken, MoveAllOn, MoveAllOnFails, Affected, OnServer;
      NextFacts(s, env);
      ghost var list := Affected(Abs().queries, s, |queryList|);
      var affected := AffectedQueries(s);
      assert |affected| > 0;
      SetServerOpen(s, false);
      aborted := MoveAllAffected(affected, list, s, env);
    }

    /** The loop over the affected queries. */
    method MoveAllAffected(affected: seq<ResQuery>, ghost list: seq<nat>, s: nat, env: Env) returns (aborted: bool)
      requires Steady() && Shape(cfg, Abs()) && OnServer(Abs(), list, 0, s) && |affected| == |list|
      requires forall k | 0 <= k < |list| :: list[k] < |queryList| && affected[k] == queryList[list[k]]
      modifies queryList, serverList
      ensures aborted <==> MoveAllOnFails(cfg, old(Abs()), list, env)
      ensures !aborted ==> Steady() && Abs() == MoveAllOn(cfg, old(Abs()), list, env)
    {
      hide Core, Consistent, MoveAllOn, MoveAllOnFails, OnServer;
      ghost var goal, fails := MoveAllOn(cfg, Abs(), list, env), MoveAllOnFails(cfg, Abs(), list, env);
      assert list[0..] == list;
      for k := 0 to |affected|
        invariant Steady() && Shape(cfg, Abs()) && OnServer(Abs(), list, k, s)
        invariant MoveAllOn(cfg, Abs(), list[k..], env) == goal && (MoveAllOnFails(cfg, Abs(), list[k..], env) <==> fails)
      {
        aborted := MoveAffected(affected[k], list, k, s, env);
        if aborted {
          return;
        }
      }
      MoveNone(cfg, Abs(), list, env);
      aborted := false;
    }

    /** Where the loop over the affected queries starts, and what it comes to. */
    lemma NextFacts(s: nat, env: Env)
      requires Valid() && s < cfg.N() && Affected(Abs().queries, s, |queryList|) != []
      ensures Steady() && Shape(cfg, Abs())
      ensures var list, st0 := Affected(Abs().queries, s, |queryList|), SetOpen(Abs(), s, false);
              && Shape(cfg, st0) && OnServer(st0, list, 0, s) && (forall m | 0 <= m < |list| :: list[m] < |queryList|)
              && Broken(cfg, Abs(), s, env)
                 == (if MoveAllOnFails(cfg, st0, list, env) then Abort else Progress(MoveAllOn(cfg, st0, list, env)))
              && Inv(cfg, MoveAllOn(cfg, st0, list, env))
    {
      hide Consistent, MoveAllOn, MoveAllOnFails;
      ConnectNextInv(cfg, Abs(), s, env);
    }

    /** One round of the loop over the affected queries. */
    method MoveAffected(q: ResQuery, ghost list: seq<nat>, ghost k: nat, s: nat, env: Env) returns (aborted: bool)
      requires Steady() && Shape(cfg, Abs()) && OnServer(Abs(), list, k, s)
      requires k < |list| && list[k] < |queryList| && queryList[list[k]] == q
      modifies queryList, serverList
      ensures aborted ==> MoveAllOnFails(cfg, old(Abs()), list[k..], env)
      ensures !aborted ==>
                && Steady() && Shape(cfg, Abs())
                && OnServer(Abs(), list, k + 1, s)
                && MoveAllOn(cfg, Abs(), list[k + 1..], env) == MoveAllOn(cfg, old(Abs()), list[k..], env)
                && (MoveAllOnFails(cfg, Abs(), list[k + 1..], env) <==> MoveAllOnFails(cfg, old(Abs()), list[k..], env))
    {
      hide Core, Consistent, MoveOn, MoveAllOn, MoveOnFails, MoveAllOnFails;
      assert TcpStatus(q.status);
      assert q.currServer == s;
      MoveRound(cfg, Abs(), list, k, s, env);
      aborted := QueryMoveOn(q, CodeConnect, env);
      if !aborted {
        CoreShape();
      }
    }

    /** The scan that saves the queries using connection `s`. */
    method AffectedQueries(s: nat) returns (affected: seq<ResQuery>)
      ensures var list := Affected(Abs().queries, s, |queryList|);
              |affected| == |list| && forall k | 0 <= k < |list| :: affected[k] == queryList[list[k]]
    {
      hide Affected;
      affected := [];
      ghost var qs := QueryViews(queryList);
      AffectedNone(qs, s);
      for i := 0 to |queryList|
        invariant var list := Affected(qs, s, i);
                  |affected| == |list| && forall k | 0 <= k < |list| :: affected[k] == queryList[list[k]]
      {
        var q := queryList[i];
        AffectedNext(qs, s, i);
        if TcpStatus(q.status) && q.currServer == s {
          affected := affected + [q];
        }
      }
    }

    // ------------------------------------------------------------- results

    /** The query has its result: leaves the state machine, unless a suffix is left to try. */
    method QueryDone(q: ResQuery, env: Env) returns (aborted: bool)
      requires Steady() && q in queryList && q.status == Void && Live(q.View()) && q.answerCode != CodeVoid
      modifies this`udpWriters, this`udp6Writers, q
      ensures Shape(cfg, old(Abs())) && q.resolverIndex == old(q.resolverIndex)
      ensures aborted <==> ResultFails(cfg, old(q.View()))
      ensures !aborted ==> Steady() && Abs() == FsmSteps.QueryDone(cfg, old(Abs()), q.resolverIndex, env)
    {
      hide Core, Consistent, Want, QueryOk, NextJoin;
      CoreShape();
      DoneResultStep(q, env);
      assert q.status == Void && q.answerCode != CodeVoid;
      assert q.answer.Answer? ==> q.answer.len <= q.answer.size;
      if q.answerCode == CodeOk && q.headerTc {
        q.answerCode := CodeAnswerTrunc;
      }
      if q.options.search && q.answerCode == CodeOk && (q.headerRcode == 2 || q.headerRcode == 3)
         && q.searchIndex < cfg.SearchSize() - 1 {
        aborted := QueryNextSuffix(q, env);
      } else {
        aborted := false;
        q.calls := q.calls + 1;
        QueryChanged(q);
        assert Abs() == FsmSteps.QueryDone(cfg, old(Abs()), q.resolverIndex, env);
      }
    }

    method QueryNextSuffix(q: ResQuery, env: Env) returns (aborted: bool)
      requires Steady() && q in queryList && q.status == Void && Live(q.View()) && TriesSuffix(cfg, q.View()) && !q.headerTc
      modifies this`udpWriters, this`udp6Writers, q
      ensures Shape(cfg, old(Abs())) && q.resolverIndex == old(q.resolverIndex)
      ensures aborted <==> ResultFails(cfg, old(q.View()))
      ensures !aborted ==> Steady() && Abs() == FsmSteps.QueryDone(cfg, old(Abs()), q.resolverIndex, env)
    {
      hide Core, Consistent, Want, QueryOk, CanWant, FsmSteps.QueryDone, NextJoin;
      CoreShape();
      DoneResultStep(q, env);
      SuffixCases(cfg, Abs(), q.resolverIndex, env);
      aborted := SuffixStarts(q, env.startOk);
      if !aborted && q.answerCode == CodeVoid {
        RestartStep(q);
        QueryWantWriteUdp(q);
      }
    }

    /** The record starts over; nothing else changes. */
    method SuffixStarts(q: ResQuery, startOk: bool) returns (aborted: bool)
      requires Wired() && q in queryList && -1 <= q.searchIndex < cfg.SearchSize() - 1
      modifies q
      ensures Wired() && q.resolverIndex == old(q.resolverIndex)
      ensures aborted <==> NextJoin(cfg, old(q.View())).Asserts?
      ensures Abs() == Set(old(Abs()), q.resolverIndex, q.View())
      ensures var v := old(q.View());
              !aborted ==>
                q.View() == if !NextJoin(cfg, v).Joins? then Call(v.(search := v.search + 1, code := CodeConcatSearchList))
                            else if startOk then Restarted(cfg, v).(tries := v.tries + 1)
                            else Call(Restarted(cfg, v).(code := CodeLaunchSearchList))
    {
      aborted := q.NextSuffix(cfg.retry, cfg.suffixes[q.searchIndex + 1], startOk);
      QueryChanged(q);
      assert Abs() == Set(old(Abs()), q.resolverIndex, q.View());
    }

    lemma DoneResultStep(q: ResQuery, env: Env)
      requires Steady() && q in queryList && q.status == Void && Live(q.View()) && q.answerCode != CodeVoid
      ensures Core(cfg, FsmSteps.QueryDone(cfg, Abs(), q.resolverIndex, env))
      ensures q.answer.Answer? ==> q.answer.len <= q.answer.size
      ensures QueryOk(cfg, q.View()) && -1 <= q.searchIndex
    {
      hide Consistent;
      QueryFacts(cfg, Abs(), q.resolverIndex);
      QueryDoneCore(cfg, Abs(), q.resolverIndex, env);
    }

    twostate lemma RestartStep(q: ResQuery)
      requires old(Steady()) && old(q in queryList && q.status == Void && Live(q.View()) && TriesSuffix(cfg, q.View()))
      requires Wired() && q in queryList && Abs() == Set(old(Abs()), old(q.resolverIndex), q.View())
      requires q.resolverIndex == old(q.resolverIndex)
      requires q.View() == Restarted(cfg, old(q.View())).(tries := old(q.View()).tries + 1)
      ensures Steady() && CanWant(cfg, Abs(), q.resolverIndex, UdpSend)
    {
      hide Consistent;
      QueryFacts(cfg, old(Abs()), q.resolverIndex);
      SuffixQuery(cfg, old(q.View()));
      UpdateCore(cfg, old(Abs()), q.resolverIndex, q.View());
    }

    // -------------------------------------------------------------- events

    /** The index of the first query in status `s`, or the number of queries. */
    method FindStatus(s: Status) returns (i: nat)
      ensures i == FirstIn(QueryViews(queryList), s, 0)
    {
      ghost var qs := QueryViews(queryList);
      i := 0;
      while i < |queryList| && queryList[i].status != s
        invariant i <= |queryList| && FirstIn(qs, s, i) == FirstIn(qs, s, 0)
      {
        i := i + 1;
      }
    }

    method FindQueryById(id: nat) returns (i: nat)
      ensures i == FirstWithId(QueryViews(queryList), id, 0)
    {
      ghost var qs := QueryViews(queryList);
      i := 0;
      while i < |queryList| && queryList[i].queryId != id
        invariant i <= |queryList| && FirstWithId(qs, id, i) == FirstWithId(qs, id, 0)
      {
        i := i + 1;
      }
    }

    method FindBody(s: nat) returns (i: nat)
      ensures i == FirstBody(QueryViews(queryList), s, 0)
    {
      ghost var qs := QueryViews(queryList);
      i := 0;
      while i < |queryList| && !(queryList[i].currServer == s && queryList[i].status == TcpBody)
        invariant i <= |queryList| && FirstBody(qs, s, i) == FirstBody(qs, s, 0)
      {
        i := i + 1;
      }
    }

    /** After a failure in UDP: the next server, or finish with `code`. */
    method UdpSwitch(q: ResQuery, code: Code)
      requires Steady() && q in queryList && CanWant(cfg, Abs(), q.resolverIndex, UdpSend)
      requires !code.CodeVoid? && !code.CodeOk?
      modifies this`udpWriters, this`udp6Writers, q
      ensures Steady() && q.resolverIndex == old(q.resolverIndex) && Shape(cfg, old(Abs()))
      ensures var (st1, ok) := SwitchElseFinish(cfg, old(Abs()), q.resolverIndex, code);
              Abs() == if ok then Want(cfg, st1, q.resolverIndex, UdpSend) else st1
    {
      hide Core, Consistent, Done, Want, CanWant, SwitchElseFinish;
      CoreShape();
      UdpWant(q);
      var ok, aborted := SwitchElseScheduleFinish(q, code);
      assert !aborted;
      if ok {
        QueryWantWriteUdp(q);
      }
    }

    lemma UdpWant(q: ResQuery)
      requires Steady() && q in queryList && CanWant(cfg, Abs(), q.resolverIndex, UdpSend)
      ensures q.answer == NoAnswer && CanWant(cfg, Abs(), q.resolverIndex, TcpSend)
    {
      hide Consistent;
    }

    lemma UdpStep(q: ResQuery)
      requires Steady() && q in queryList && q.status != Void && q.status != TcpBody
      ensures var i := q.resolverIndex;
              && ShapeOf(cfg, Done(cfg, Abs(), i), |queryList|)
              && (forall s: Status | !s.TcpBody? && (TcpStatus(s) || !TcpStatus(q.status)) ::
                    CanWant(cfg, Done(cfg, Abs(), i), i, s))
    {
      hide Consistent, Done;
      QueryFacts(cfg, Abs(), q.resolverIndex);
      DoneShape(cfg, Abs(), q.resolverIndex);
    }

    method OnUdpWrite(sent: SendResult)
      requires Valid() && Enabled(cfg, Abs(), UdpWritable(sent))
      modifies this`udpWriters, this`udp6Writers, this`udpReaders, this`udp6Readers, queryList
      ensures Valid() && Shape(cfg, old(Abs()))
      ensures Follows(OnUdpWritable(cfg, old(Abs()), sent), old(Abs()), Abs(), false)
    {
      hide Core, Consistent, Inv, Enabled, Done, Want, CanWant, SwitchElseFinish, FirstIn;
      UdpWriteFacts(sent);
      assert |queryList| > 0;
      var i := FindStatus(UdpSend);
      assert i < |queryList|;
      var q := queryList[i];
      UdpStep(q);
      if sent == SendWouldBlock {
        return;
      }
      if sent == SendFail {
        QueryDoneWriteUdp(q);
        UdpSwitch(q, CodeSend);
        return;
      }
      QueryDoneWriteUdp(q);
      QueryWantReadUdp(q);
    }

    lemma UdpWriteFacts(sent: SendResult)
      requires Valid() && Enabled(cfg, Abs(), UdpWritable(sent))
      ensures Steady() && Shape(cfg, Abs()) && FirstIn(Abs().queries, UdpSend, 0) < |queryList|
      ensures var o := OnUdpWritable(cfg, Abs(), sent); o.Progress? ==> Inv(cfg, o.state)
    {
      hide Consistent;
      UdpWritableStep(cfg, Abs(), sent);
    }

    /** Puts a result, or the start of one, into the record. */
    method Save(q: ResQuery, answer: Answer, code: Code, rcode: nat, tc: bool)
      requires Steady() && q in queryList
      requires QueryOk(cfg, q.View().(answer := answer, code := code, rcode := rcode, tc := tc))
      modifies q
      ensures Steady() && q.resolverIndex == old(q.resolverIndex)
      ensures Abs() == Set(old(Abs()), q.resolverIndex,
                           old(q.View()).(answer := answer, code := code, rcode := rcode, tc := tc))
    {
      hide Core, Consistent, QueryOk;
      SaveStep(q, answer, code, rcode, tc);
      q.Store(answer, code, rcode, tc);
      QueryChanged(q);
      assert Abs() == Set(old(Abs()), q.resolverIndex, q.View());
    }

    lemma SaveStep(q: ResQuery, answer: Answer, code: Code, rcode: nat, tc: bool)
      requires Steady() && q in queryList
      requires QueryOk(cfg, q.View().(answer := answer, code := code, rcode := rcode, tc := tc))
      ensures Core(cfg, Set(Abs(), q.resolverIndex, q.View().(answer := answer, code := code, rcode := rcode, tc := tc)))
    {
      hide Consistent, QueryOk;
      UpdateCore(cfg, Abs(), q.resolverIndex, q.View().(answer := answer, code := code, rcode := rcode, tc := tc));
    }

    /** Stores a result and leaves the state machine with it. */
    method Conclude(q: ResQuery, answer: Answer, code: Code, rcode: nat, tc: bool, env: Env) returns (aborted: bool)
      requires Steady() && q in queryList && q.status == Void && Live(q.View()) && code != CodeVoid
      requires QueryOk(cfg, q.View().(answer := answer, code := code, rcode := rcode, tc := tc))
      modifies this`udpWriters, this`udp6Writers, q
      ensures q.resolverIndex == old(q.resolverIndex) && Shape(cfg, old(Abs()))
      ensures var p := old(q.View()).(answer := answer, code := code, rcode := rcode, tc := tc);
              && (aborted <==> ResultFails(cfg, p))
              && (!aborted ==>
                    Steady() && Abs() == FsmSteps.QueryDone(cfg, Set(old(Abs()), q.resolverIndex, p), q.resolverIndex, env))
    {
      hide Core, Consistent, QueryOk, FsmSteps.QueryDone, ResultFails;
      CoreShape();
      Save(q, answer, code, rcode, tc);
      aborted := QueryDone(q, env);
    }

    lemma ValidSteady()
      requires Valid()
      ensures Steady() && Shape(cfg, Abs())
    {
      hide Consistent;
    }

    /** A query that stops reading has no result yet, and may be given one or sent on. */
    lemma ReadStep(q: ResQuery)
      requires Steady() && q in queryList && (q.status == UdpRecv || q.status == TcpHead)
      ensures var i := q.resolverIndex;
              && ShapeOf(cfg, Done(cfg, Abs(), i), |queryList|)
              && Done(cfg, Abs(), i).queries[i] == q.View().(status := Void, timer := NoTimer)
              && (forall s | 0 <= s < cfg.N() :: Done(cfg, Abs(), i).servers[s].headLen == serverList[s].tcpHeadLen)
              && CanWant(cfg, Done(cfg, Abs(), i), i, TcpSend)
              && (q.status == UdpRecv ==> q.answer == NoAnswer) && q.answerCode == CodeVoid && Live(q.View())
              && AnswerOk(cfg, q.View().(status := Void, timer := NoTimer))
      ensures forall answer: Answer, code: Code, rcode: nat, tc: bool |
                var p := q.View().(status := Void, timer := NoTimer, answer := answer, code := code, rcode := rcode, tc := tc);
                AnswerOk(cfg, p) && !code.CodeVoid? ::
                QueryOk(cfg, q.View().(status := Void, timer := NoTimer, answer := answer, code := code, rcode := rcode, tc := tc))
    {
      hide Consistent, Done, Times;
      QueryFacts(cfg, Abs(), q.resolverIndex);
      DoneShape(cfg, Abs(), q.resolverIndex);
      forall answer: Answer, code: Code, rcode: nat, tc: bool |
        AnswerOk(cfg, q.View().(status := Void, timer := NoTimer, answer := answer, code := code, rcode := rcode, tc := tc))
        && !code.CodeVoid?
        ensures QueryOk(cfg, q.View().(status := Void, timer := NoTimer, answer := answer, code := code, rcode := rcode, tc := tc))
      {
        ResultOk(cfg, q.View(), q.View().(status := Void, timer := NoTimer, answer := answer, code := code, rcode := rcode, tc := tc));
      }
    }

    /** A datagram: the flags decide between an error, a retry over TCP and an answer. */
    method OnUdpRead(family: Family, d: Datagram, env: Env) returns (aborted: bool)
      requires Valid()
      modifies this`udpWriters, this`udp6Writers, this`udpReaders, this`udp6Readers, queryList, serverList
      ensures Shape(cfg, old(Abs()))
      ensures Follows(OnUdpReadable(cfg, old(Abs()), family, d, env), old(Abs()), Abs(), aborted)
      ensures !aborted ==> Valid()
    {
      hide Core, Consistent, Inv, Done, Want, CanWant, WantConnect, QueryOk, FsmSteps.QueryDone, Advances;
      ValidSteady();
      UdpReadableGood(cfg, Abs(), family, d, env);
      if d.NoDatagram? || d.size > DATAGRAM_HIGH || d.size < MSG_HEADER {
        return false;
      }
      var i := FindQueryById(d.id);
      if i == |queryList| || queryList[i].status != UdpRecv {
        return false;
      }
      var q := queryList[i];
      if cfg.families[q.currServer] != family {
        return true;
      }
      aborted := UdpAnswer(q, d, env);
    }

    method UdpAnswer(q: ResQuery, d: Datagram, env: Env) returns (aborted: bool)
      requires Steady() && q in queryList && q.status == UdpRecv && d.Datagram? && d.size > 0
      requires d.size <= DATAGRAM_HIGH && Shape(cfg, Abs())
      modifies this`udpWriters, this`udp6Writers, this`udpReaders, this`udp6Readers, queryList, serverList
      ensures ShapeOf(cfg, old(Abs()), |queryList|)
      ensures aborted <==> UdpAnswerFails(cfg, old(Abs()), old(q.resolverIndex), d, env)
      ensures !aborted ==> Steady() && Abs() == UdpAnswered(cfg, old(Abs()), old(q.resolverIndex), d, env)
    {
      hide Core, Consistent, Done, Want, CanWant, WantConnect, WantConnectFails, RunsOut, QueryOk, FsmSteps.QueryDone;
      CoreShape();
      ReadStep(q);
      QueryDoneReadUdp(q);
      var code := CheckAnswerFlags(d.flags, q.options.needRa);
      if code != CodeOk {
        aborted := Conclude(q, NoAnswer, code, q.headerRcode, q.headerTc, env);
      } else if d.flags & MASK_TC != 0 {
        aborted := QueryWantConnectTcp(q, env);
      } else {
        assert q.answer == NoAnswer && q.answerCode == CodeVoid;
        aborted := Conclude(q, Answer(d.size, d.size), CodeOk, d.rcode, false, env);
      }
    }

    method OnUdpReadTimeout(q: ResQuery)
      requires Valid() && q in queryList && q.timer == UdpReadTimer
      modifies this`udpWriters, this`udp6Writers, this`udpReaders, this`udp6Readers, queryList
      ensures Valid() && Shape(cfg, old(Abs())) && Abs() == Resend(cfg, old(Abs()), old(q.resolverIndex), CodeTimeout)
    {
      hide Core, Consistent, Inv, Done, Want, CanWant, SwitchElseFinish, Advances;
      ValidSteady();
      DoneStep(q);
      UdpStep(q);
      ResendGood(cfg, Abs(), q.resolverIndex, CodeTimeout);
      QueryDoneReadUdp(q);
      UdpSwitch(q, CodeTimeout);
    }

    method OnTcpReadTimeout(q: ResQuery, env: Env) returns (aborted: bool)
      requires Valid() && q in queryList && (q.timer == TcpHeadTimer || q.timer == TcpBodyTimer)
      modifies queryList, serverList
      ensures Shape(cfg, old(Abs()))
      ensures Follows(OnReadTimeout(cfg, old(Abs()), old(q.resolverIndex), env), old(Abs()), Abs(), aborted)
      ensures !aborted ==> Valid()
    {
      hide Core, Consistent, Inv, MoveOn, MoveOnFails, Stuck, Advances;
      ValidSteady();
      DoneStep(q);
      ReadTimeoutStep(cfg, Abs(), q.resolverIndex, env);
      aborted := QueryMoveOn(q, CodeTimeout, env);
    }

    method OnTcpConnect(s: nat, connected: bool, env: Env) returns (aborted: bool)
      requires Valid() && Enabled(cfg, Abs(), ConnectResult(s, connected))
      modifies this`udpWriters, this`udp6Writers, this`udpReaders, this`udp6Readers, queryList, serverList
      ensures Shape(cfg, old(Abs()))
      ensures Follows(OnConnectResult(cfg, old(Abs()), s, connected, env), old(Abs()), Abs(), aborted)
      ensures !aborted ==> Valid()
    {
      hide Core, Consistent, Inv, ConnectNext, ConnectToWrite, ConnectNextFails, Advances, ScanHolds;
      ValidSteady();
      ConnectResultStep(cfg, Abs(), s, connected, env);
      ConnecterFacts(s, env);
      assert |queryList| > 0;
      if connected {
        aborted := QueriesTcpConnectToWrite(s);
      } else {
        aborted := QueriesConnectNext(s, env);
      }
    }

    lemma ConnecterFacts(s: nat, env: Env)
      requires Valid() && s < cfg.N() && serverList[s].tcpConnecters > 0
      ensures |queryList| > 0 && Shape(cfg, Abs()) && Affected(Abs().queries, s, |queryList|) != []
    {
      hide Consistent, ConnectNext, ConnectNextFails;
      var i := CounterWitness(cfg, Abs(), Connecters(s));
      BrokenGood(cfg, Abs(), s, i, env);
    }

    method OnTcpWrite(s: nat, sent: SendResult, env: Env) returns (aborted: bool)
      requires Valid() && Enabled(cfg, Abs(), TcpWritable(s, sent))
      modifies this`udpWriters, this`udp6Writers, this`udpReaders, this`udp6Readers, queryList, serverList
      ensures Shape(cfg, old(Abs()))
      ensures Follows(OnTcpWritable(cfg, old(Abs()), s, sent, env), old(Abs()), Abs(), aborted)
      ensures !aborted ==> Valid()
    {
      hide Core, Consistent, Inv, Enabled, Done, Want, Broken, FirstIn;
      TcpWriteFacts(s, sent, env);
      var i := FindStatus(TcpSend);
      assert i < |queryList|;
      match sent {
        case SendWouldBlock => aborted := false;
        case SendFail => aborted := QueriesConnectNext(s, env);
        case Sent =>
          TcpSent(queryList[i]);
          aborted := false;
      }
    }

    method TcpSent(q: ResQuery)
      requires Steady() && q in queryList && q.status == TcpSend
      modifies queryList, serverList
      ensures Steady() && ShapeOf(cfg, old(Abs()), |queryList|)
      ensures var d := Done(cfg, old(Abs()), old(q.resolverIndex));
              ShapeOf(cfg, d, |queryList|) && Abs() == Want(cfg, d, old(q.resolverIndex), TcpHead)
    {
      hide Core, Consistent, Done, Want, CanWant;
      CoreShape();
      UdpStep(q);
      QueryDoneWriteTcp(q);
      QueryWantReadTcpHead(q);
    }

    lemma TcpWriteFacts(s: nat, sent: SendResult, env: Env)
      requires Valid() && Enabled(cfg, Abs(), TcpWritable(s, sent))
      ensures Steady() && Shape(cfg, Abs()) && s < cfg.N()
      ensures FirstIn(Abs().queries, TcpSend, 0) < |queryList| && Affected(Abs().queries, s, |queryList|) != []
      ensures var o := OnTcpWritable(cfg, Abs(), s, sent, env); o.Progress? ==> Inv(cfg, o.state)
    {
      hide Consistent, ConnectNext, ConnectNextFails;
      var w := CounterWitness(cfg, Abs(), Writers(s));
      BrokenGood(cfg, Abs(), s, w, env);
      TcpWritableStep(cfg, Abs(), s, sent, env);
    }

    /** Bytes of a header arrived; the program asks for no more than are missing. */
    method AddHead(s: nat, rd: nat)
      requires Valid() && s < cfg.N() && 0 <= serverList[s].tcpHeadLen && serverList[s].tcpHeadLen + rd <= TCP_HEADER
      modifies serverList
      ensures Valid() && Shape(cfg, old(Abs()))
      ensures Abs() == SetHeadLen(old(Abs()), s, old(serverList[s].tcpHeadLen) + rd)
    {
      hide Inv, Consistent;
      ValidSteady();
      HeadLenInv(cfg, Abs(), s, serverList[s].tcpHeadLen + rd);
      serverList[s].tcpHeadLen := serverList[s].tcpHeadLen + rd;
      ServerChanged(s);
      assert Abs() == SetHeadLen(old(Abs()), s, serverList[s].tcpHeadLen);
    }

    method RecvTcpHead(s: nat, received: RecvResult, header: Header, env: Env) returns (aborted: bool)
      requires Valid() && Enabled(cfg, Abs(), TcpReadable(s, received, header))
      requires FirstBody(Abs().queries, s, 0) == |queryList|
      modifies this`udpWriters, this`udp6Writers, this`udpReaders, this`udp6Readers, queryList, serverList
      ensures Shape(cfg, old(Abs()))
      ensures Follows(OnHead(cfg, old(Abs()), s, received, header, env), old(Abs()), Abs(), aborted)
      ensures !aborted ==> Valid()
    {
      hide Core, Consistent, Inv, Enabled, ConnectNext, ConnectNextFails, OnFullHead, Affected, FirstBody;
      ValidSteady();
      HeadFacts(s, received, header, env);
      var headLen := serverList[s].tcpHeadLen;
      assert headLen >= 0;
      if headLen >= TCP_HEADER {
        return true;
      }
      match received {
        case RecvWouldBlock =>
          aborted := false;
        case RecvClosed => aborted := QueriesConnectNext(s, env);
        case RecvFail => aborted := QueriesConnectNext(s, env);
        case Bytes(rd) => aborted := HeadBytesIn(s, rd, header, env);
      }
    }

    lemma HeadFacts(s: nat, received: RecvResult, header: Header, env: Env)
      requires Valid() && Enabled(cfg, Abs(), TcpReadable(s, received, header))
      requires FirstBody(Abs().queries, s, 0) == |queryList|
      ensures Shape(cfg, Abs()) && s < cfg.N() && serverList[s].tcpReaders > 0 && header.msgLen < 0x1_0000
      ensures 0 <= serverList[s].tcpHeadLen <= TCP_HEADER
      ensures received.Bytes? && serverList[s].tcpHeadLen < TCP_HEADER ==>
                0 < received.rd <= TCP_HEADER - serverList[s].tcpHeadLen
      ensures Affected(Abs().queries, s, |queryList|) != []
    {
      hide Consistent, ConnectNext;
      var reader := HeadReader(cfg, Abs(), s);
      BrokenGood(cfg, Abs(), s, reader, env);
    }

    method HeadBytesIn(s: nat, rd: nat, header: Header, env: Env) returns (aborted: bool)
      requires Valid() && s < cfg.N() && serverList[s].tcpReaders > 0 && header.msgLen < 0x1_0000
      requires FirstBody(Abs().queries, s, 0) == |queryList|
      requires 0 <= serverList[s].tcpHeadLen < serverList[s].tcpHeadLen + rd <= TCP_HEADER
      modifies this`udpWriters, this`udp6Writers, this`udpReaders, this`udp6Readers, queryList, serverList
      ensures Shape(cfg, old(Abs()))
      ensures Follows(OnHead(cfg, old(Abs()), s, Bytes(rd), header, env), old(Abs()), Abs(), aborted)
      ensures !aborted ==> Valid()
    {
      hide Core, Consistent, Inv, OnFullHead, FirstBody;
      ValidSteady();
      AddHead(s, rd);
      aborted := false;
      if serverList[s].tcpHeadLen == TCP_HEADER {
        aborted := HeadComplete(s, header, env);
      }
    }

    /** All fourteen bytes are in: the length prefix and the header of the answer. */
    method HeadComplete(s: nat, header: Header, env: Env) returns (aborted: bool)
      requires Valid() && s < cfg.N() && serverList[s].tcpReaders > 0 && header.msgLen < 0x1_0000
      requires FirstBody(Abs().queries, s, 0) == |queryList| && serverList[s].tcpHeadLen == TCP_HEADER
      modifies this`udpWriters, this`udp6Writers, this`udpReaders, this`udp6Readers, queryList, serverList
      ensures Shape(cfg, old(Abs()))
      ensures !OnFullHead(cfg, old(Abs()), s, header, env).Idle?
      ensures Follows(OnFullHead(cfg, old(Abs()), s, header, env), old(Abs()), Abs(), aborted)
      ensures !aborted ==> Valid()
    {
      hide Core, Consistent, Inv, ConnectNext, ConnectNextFails, HeadAnswered, Affected, FirstBody, FirstWithId;
      FullHeadFacts(s, header, env);
      if header.msgLen < MSG_LOW {
        aborted := QueriesConnectNext(s, env);
        return;
      }
      var i := FindQueryById(header.id);
      if i == |queryList| {
        aborted := QueriesConnectNext(s, env);
        return;
      }
      var q := queryList[i];
      if cfg.repaired && !(q.status == TcpHead && q.currServer == s) {
        aborted := QueriesConnectNext(s, env);
        return;
      }
      if q.status != TcpHead {
        return true;
      }
      aborted := TcpAnswerHead(q, header, env);
    }

    lemma FullHeadFacts(s: nat, header: Header, env: Env)
      requires Valid() && s < cfg.N() && serverList[s].tcpReaders > 0 && header.msgLen < 0x1_0000
      requires FirstBody(Abs().queries, s, 0) == |queryList|
      ensures Steady() && Shape(cfg, Abs()) && Affected(Abs().queries, s, |queryList|) != []
      ensures var o := OnFullHead(cfg, Abs(), s, header, env); o.Progress? ==> Inv(cfg, o.state)
    {
      hide Consistent, ConnectNext, OnFullHead;
      FullHead(cfg, Abs(), s, header, env);
      var reader := HeadReader(cfg, Abs(), s);
      BrokenGood(cfg, Abs(), s, reader, env);
    }

    /** `aborted`: the buffer of another body is left, or the count of the query's own
        connection is not that of a whole header. */
    method TcpAnswerHead(q: ResQuery, header: Header, env: Env) returns (aborted: bool)
      requires Steady() && q in queryList && q.status == TcpHead && MSG_LOW <= header.msgLen < 0x1_0000
      requires Shape(cfg, Abs()) && (cfg.repaired ==> NoBodyBut(Abs(), q.resolverIndex))
      modifies this`udpWriters, this`udp6Writers, queryList, serverList
      ensures ShapeOf(cfg, old(Abs()), |queryList|)
      ensures aborted <==> HeadFails(cfg, old(Abs()), old(q.resolverIndex), header)
      ensures !aborted ==> Steady() && Abs() == HeadAnswered(cfg, old(Abs()), old(q.resolverIndex), header, env)
    {
      hide Core, Consistent, Done, Want, CanWant, QueryOk, FsmSteps.QueryDone, NextJoin;
      CoreShape();
      ReadStep(q);
      BodyStep(q, header);
      QueryDoneReadTcpHead(q);
      var code := CheckAnswerFlags(header.flags, q.options.needRa);
      aborted := false;
      if code != CodeOk {
        aborted := Conclude(q, q.answer, code, q.headerRcode, q.headerTc, env);
      } else if q.answer != NoAnswer || serverList[q.currServer].tcpHeadLen != TCP_HEADER {
        aborted := true;
      } else {
        assert q.answerCode == CodeVoid;
        Save(q, Answer(header.msgLen, MSG_HEADER), CodeVoid, header.rcode, header.flags & MASK_TC != 0);
        QueryWantReadTcpBody(q);
      }
    }

    /** The header of an answer is stored and its body may be waited for. */
    lemma BodyStep(q: ResQuery, header: Header)
      requires Steady() && q in queryList && q.status == TcpHead && MSG_LOW <= header.msgLen < 0x1_0000
      requires Shape(cfg, Abs()) && (cfg.repaired ==> NoBodyBut(Abs(), q.resolverIndex))
      ensures var i, tc := q.resolverIndex, header.flags & MASK_TC != 0;
              var p := q.View().(status := Void, timer := NoTimer, answer := Answer(header.msgLen, MSG_HEADER),
                                 rcode := header.rcode, tc := tc);
              && Shape(cfg, Abs()) && QueryOk(cfg, p)
              && ShapeOf(cfg, Done(cfg, Abs(), i), |queryList|)
              && CanWant(cfg, Set(Done(cfg, Abs(), i), i, p), i, TcpBody)
    {
      hide Consistent, Done, Times;
      QueryFacts(cfg, Abs(), q.resolverIndex);
      DoneShape(cfg, Abs(), q.resolverIndex);
      var p := q.View().(status := Void, timer := NoTimer, answer := Answer(header.msgLen, MSG_HEADER),
                         rcode := header.rcode, tc := header.flags & MASK_TC != 0);
      assert AttemptsLeft(cfg, p) == AttemptsLeft(cfg, q.View());
    }

    /** Bytes of the body of the answer to `q`. */
    method RecvTcpBody(q: ResQuery, received: RecvResult, env: Env) returns (aborted: bool)
      requires Valid() && q in queryList && q.status == TcpBody
      requires received.Bytes? ==> q.answer.Answer? && 0 < received.rd <= q.answer.size - q.answer.len
      modifies this`udpWriters, this`udp6Writers, this`udpReaders, this`udp6Readers, queryList, serverList
      ensures Shape(cfg, old(Abs())) && old(q.answer).Answer?
      ensures Follows(OnBody(cfg, old(Abs()), old(q.resolverIndex), received, env), old(Abs()), Abs(), aborted)
      ensures !aborted ==> Valid()
    {
      hide Core, Consistent, Inv, Done, ConnectNext, ConnectNextFails, QueryOk, FsmSteps.QueryDone, Advances, Affected;
      ValidSteady();
      BodyFacts(q);
      assert q.answer.size >= MSG_LOW && MSG_HEADER <= q.answer.len < q.answer.size;
      match received {
        case RecvWouldBlock => aborted := false;
        case RecvClosed =>
          aborted := true;
          if cfg.repaired {
            aborted := BodyBroken(q, env);
          }
        case RecvFail => aborted := BodyBroken(q, env);
        case Bytes(rd) =>
          aborted := false;
          if q.answer.len + rd < q.answer.size {
            BodyBytesIn(q, rd, env);
          } else {
            aborted := BodyEnd(q, env);
          }
      }
    }

    /** The connection of a query that receives a body failed. */
    method BodyBroken(q: ResQuery, env: Env) returns (aborted: bool)
      requires Valid() && q in queryList && q.status == TcpBody && q.currServer < cfg.N()
      modifies queryList, serverList
      ensures Shape(cfg, old(Abs()))
      ensures Follows(Broken(cfg, old(Abs()), old(q.currServer), env), old(Abs()), Abs(), aborted)
      ensures !aborted ==> Valid()
    {
      hide Core, Consistent, Inv, ConnectNext, ConnectNextFails, Advances, Affected, Broken;
      ValidSteady();
      BrokenGood(cfg, Abs(), q.currServer, q.resolverIndex, env);
      aborted := QueriesConnectNext(q.currServer, env);
    }

    lemma BodyFacts(q: ResQuery)
      requires Steady() && q in queryList && q.status == TcpBody
      ensures q.answer.Answer? && q.answer.size >= MSG_LOW && MSG_HEADER <= q.answer.len < q.answer.size
      ensures q.currServer < cfg.N() && q.answerCode == CodeVoid && Live(q.View())
      ensures Shape(cfg, Abs()) && ShapeOf(cfg, Done(cfg, Abs(), q.resolverIndex), |queryList|)
      ensures Done(cfg, Abs(), q.resolverIndex).queries[q.resolverIndex] == q.View().(status := Void, timer := NoTimer)
      ensures QueryOk(cfg, q.View().(status := Void, timer := NoTimer, code := CodeOk,
                                     answer := Answer(q.answer.size, q.answer.size)))
    {
      hide Consistent, Times, Done;
      QueryFacts(cfg, Abs(), q.resolverIndex);
      DoneShape(cfg, Abs(), q.resolverIndex);
      ResultOk(cfg, q.View(), q.View().(status := Void, timer := NoTimer, code := CodeOk,
                                        answer := Answer(q.answer.size, q.answer.size)));
    }

    method BodyBytesIn(q: ResQuery, rd: nat, env: Env)
      requires Valid() && q in queryList && q.status == TcpBody
      requires q.answer.Answer? && 0 < rd < q.answer.size - q.answer.len
      modifies q
      ensures Valid() && Shape(cfg, old(Abs())) && old(q.answer).Answer?
      ensures OnBody(cfg, old(Abs()), old(q.resolverIndex), Bytes(rd), env) == Progress(Abs())
    {
      hide Core, Consistent, Inv;
      ValidSteady();
      PartialBody(cfg, Abs(), q.resolverIndex, rd, env);
      q.answer := Answer(q.answer.size, q.answer.len + rd);
      QueryChanged(q);
      assert Abs() == Set(old(Abs()), q.resolverIndex, q.View());
    }

    /** The state after the last bytes of a body. */
    ghost function BodyGoal(q: ResQuery, env: Env): State
      requires Shape(cfg, Abs()) && q.resolverIndex < |queryList| && queryList[q.resolverIndex] == q && q.answer.Answer?
      reads this, queryList, serverList, q
    {
      DoneShape(cfg, Abs(), q.resolverIndex);
      var p := q.View().(status := Void, timer := NoTimer, code := CodeOk, answer := Answer(q.answer.size, q.answer.size));
      FsmSteps.QueryDone(cfg, Set(Done(cfg, Abs(), q.resolverIndex), q.resolverIndex, p), q.resolverIndex, env)
    }

    lemma BodyEndStep(q: ResQuery, env: Env)
      requires Valid() && q in queryList && q.status == TcpBody && q.answer.Answer? && q.answer.len < q.answer.size
      ensures Shape(cfg, Abs())
      ensures OnBody(cfg, Abs(), q.resolverIndex, Bytes(q.answer.size - q.answer.len), env)
           == if ResultFails(cfg, q.View().(code := CodeOk)) then Abort else Progress(BodyGoal(q, env))
      ensures !ResultFails(cfg, q.View().(code := CodeOk)) ==> Inv(cfg, BodyGoal(q, env))
    {
      hide Core, Consistent, Inv, Done, QueryOk, FsmSteps.QueryDone, OnBody, Advances;
      ValidSteady();
      BodyComplete(cfg, Abs(), q.resolverIndex, q.answer.size - q.answer.len, env);
      BodyGood(cfg, Abs(), q.resolverIndex, Bytes(q.answer.size - q.answer.len), env);
    }

    /** The last bytes of a body: the answer is complete. */
    method BodyEnd(q: ResQuery, env: Env) returns (aborted: bool)
      requires Valid() && q in queryList && q.status == TcpBody && q.answer.Answer? && q.answer.len < q.answer.size
      modifies this`udpWriters, this`udp6Writers, queryList, serverList
      ensures Shape(cfg, old(Abs())) && old(q.answer).Answer?
      ensures Follows(OnBody(cfg, old(Abs()), old(q.resolverIndex), Bytes(old(q.answer).size - old(q.answer).len), env),
                      old(Abs()), Abs(), aborted)
      ensures !aborted ==> Valid()
    {
      hide Core, Consistent, Inv, Done, QueryOk, FsmSteps.QueryDone, OnBody;
      BodyEndStep(q, env);
      ValidSteady();
      BodyFacts(q);
      DoneStep(q);
      var size := q.answer.size;
      QueryDoneReadTcpBody(q);
      assert q.answerCode == CodeVoid;
      aborted := Conclude(q, Answer(size, size), CodeOk, q.headerRcode, q.headerTc, env);
    }

    method OnTcpRead(s: nat, received: RecvResult, header: Header, env: Env) returns (aborted: bool)
      requires Valid() && Enabled(cfg, Abs(), TcpReadable(s, received, header))
      modifies this`udpWriters, this`udp6Writers, this`udpReaders, this`udp6Readers, queryList, serverList
      ensures Shape(cfg, old(Abs()))
      ensures Follows(OnTcpReadable(cfg, old(Abs()), s, received, header, env), old(Abs()), Abs(), aborted)
      ensures !aborted ==> Valid()
    {
      hide Core, Consistent, Inv, OnHead, OnBody;
      ValidSteady();
      var i := FindBody(s);
      if i == |queryList| {
        aborted := RecvTcpHead(s, received, header, env);
      } else {
        BodyFacts(queryList[i]);
        aborted := RecvTcpBody(queryList[i], received, env);
      }
    }

    /** The scheduled finish of a query that ran out of servers: its code is an error,
        so no suffix is tried. */
    method QueryDoneNow(q: ResQuery, env: Env)
      requires Valid() && q in queryList && q.finishScheduled
      modifies q
      ensures Valid() && Shape(cfg, old(Abs()))
      ensures Progress(Abs()) == Step(cfg, old(Abs()), FinishNow(old(q.resolverIndex)), env)
    {
      hide Core, Consistent, Inv, QueryOk, Advances;
      ValidSteady();
      FinishFacts(q);
      FinishGood(cfg, Abs(), q.resolverIndex, env);
      q.finishScheduled := false;
      assert q.answerCode != CodeOk;
      q.calls := q.calls + 1;
      QueryChanged(q);
      assert Abs() == Set(old(Abs()), q.resolverIndex, q.View());
      assert Set(Set(old(Abs()), q.resolverIndex, old(q.View()).(finish := false)), q.resolverIndex, q.View()) == Abs();
    }

    lemma FinishFacts(q: ResQuery)
      requires Steady() && q in queryList && q.finishScheduled
      ensures q.status == Void && q.calls == 0 && q.answerCode != CodeVoid && q.answerCode != CodeOk
    {
      hide Consistent;
      QueryFacts(cfg, Abs(), q.resolverIndex);
    }

    // ------------------------------------------------------ submit, delete

    method GetNextServer() returns (s: nat)
      requires nextServer < cfg.N()
      modifies this`nextServer
      ensures s == old(nextServer) && nextServer == Following(cfg.N(), old(nextServer))
    {
      s := nextServer;
      nextServer := Following(cfg.N(), nextServer);
    }

    lemma NextServerOk()
      requires Steady()
      ensures nextServer < cfg.N()
    {
      hide Consistent;
    }

    /** A new query joins the list; `tries` tells whether it is about to start. */
    method Enlist(options: Options, ghost tries: nat) returns (q: ResQuery)
      requires Wired() && nextServer < cfg.N()
      modifies this`nextServer, this`nextQueryId, this`queryList
      ensures Wired() && fresh(q) && queryList == old(queryList) + [q] && q.resolverIndex == |old(queryList)|
      ensures Abs() == old(Abs()).(queries := old(Abs()).queries + [NewQuery(cfg, old(Abs()), options).(tries := tries)],
                                   nextServer := Following(cfg.N(), old(nextServer)),
                                   nextId := (old(nextQueryId) + 1) % 0x1_0000)
    {
      hide Following;
      var server := GetNextServer();
      q := new ResQuery(|queryList|, nextQueryId, server, cfg.retry, options);
      q.tries := tries;
      nextQueryId := (nextQueryId + 1) % 0x1_0000;
      queryList := queryList + [q];
      assert QueryViews(queryList) == old(QueryViews(queryList)) + [q.View()];
    }

    method Submit(options: Options, starts: bool) returns (q: ResQuery)
      requires Valid()
      modifies this, serverList
      ensures Valid() && fresh(q) && queryList == old(queryList) + [q]
      ensures Shape(cfg, old(Abs())) && old(nextServer) < cfg.N()
      ensures Abs() == OnSubmit(cfg, old(Abs()), options, starts)
    {
      hide Inv, Core, Consistent, Want, CanWant;
      ValidSteady();
      NextServerOk();
      SubmitInv(cfg, Abs(), options, starts);
      SubmitCore(cfg, Abs(), options);
      q := Enlist(options, if starts then 1 else 0);
      if starts {
        QueryWantWriteUdp(q);
      }
    }

    /** The clean-up of the query's status; the last query takes its place in the list. */
    method Delete(q: ResQuery) returns (aborted: bool)
      requires Valid() && q in queryList
      modifies this, queryList, serverList
      ensures Shape(cfg, old(Abs()))
      ensures aborted <==> !cfg.repaired && old(q.status) == TcpSend
      ensures !aborted ==> Valid() && q !in queryList && Abs() == OnDelete(cfg, old(Abs()), old(q.resolverIndex))
    {
      hide Inv, Core, Consistent, Done, OnDelete, Dropped;
      ValidSteady();
      var index := q.resolverIndex;
      DeleteInv(cfg, Abs(), index);
      DeleteIsDrop(cfg, Abs(), index);
      aborted := QueryStatusDone(q);
      if !aborted {
        Unlist(q);
      }
    }

    /** Drops the query and gives the one that replaced it, if any, its new index. */
    method Unlist(q: ResQuery)
      requires Wired() && q in queryList
      modifies this`queryList, queryList
      ensures Wired() && q !in queryList && queryList == Dropped(old(queryList), old(q.resolverIndex))
      ensures Abs() == old(Abs()).(queries := Dropped(old(Abs()).queries, old(q.resolverIndex)))
    {
      var index := q.resolverIndex;
      queryList := queryList[index := queryList[|queryList| - 1]][..|queryList| - 1];
      if index != |queryList| {
        queryList[index].resolverIndex := index;
      }
      assert QueryViews(queryList) == Dropped(old(QueryViews(queryList)), index);
    }
  }

  /** Among the first `j` queries, whoever waits to connect has a descriptor. */
  ghost predicate ScannedTo(st: State, j: nat) {
    forall k | 0 <= k < |st.queries| && k < j && st.queries[k].status.TcpConnect? && st.queries[k].turn.curr < |st.servers| ::
      st.servers[st.queries[k].turn.curr].open
  }

  lemma ScanEnds(st: State)
    ensures ScannedTo(st, 0)
    ensures ScannedTo(st, |st.queries|) <==> ScanHolds(st)
  {
  }

  /** What one round of the scan checks. */
  lemma WriteScan(cfg: Config, st: State, j: nat)
    requires Shape(cfg, st) && j < |st.queries| && ScannedTo(st, j)
    ensures var q := st.queries[j];
            && (q.status.TcpConnect? && !st.servers[q.turn.curr].open ==> !ScanHolds(st))
            && (!q.status.TcpConnect? || st.servers[q.turn.curr].open ==>
                  && ScannedTo(st, j + 1)
                  && var r := Want(cfg, Done(cfg, st, j), j, TcpSend);
                     ScannedTo(r, j + 1) && (ScanHolds(r) <==> ScanHolds(st)))
  {
    hide Done, Want;
    DoneShape(cfg, st, j);
    WantShape(cfg, Done(cfg, st, j), j, TcpSend);
    var r := Want(cfg, Done(cfg, st, j), j, TcpSend);
    assert forall k | 0 <= k < |st.queries| && k != j :: r.queries[k] == st.queries[k];
    if st.queries[j].status.TcpConnect? && st.servers[st.queries[j].turn.curr].open && ScanHolds(r) {
      forall k | 0 <= k < |st.queries| && st.queries[k].status.TcpConnect? && st.queries[k].turn.curr < |st.servers|
        ensures st.servers[st.queries[k].turn.curr].open
      {
        assert k != j ==> r.queries[k] == st.queries[k];
      }
    }
  }

  /** A connection is made at once and the assertion of the scan fails; or the attempt fails,
      no switch is left, and a buffer is. */
  ghost predicate AttemptFails(cfg: Config, st: State, i: nat, result: Connect)
    requires Shape(cfg, st) && i < |st.queries|
  {
    match result
    case Immediate => !ScanHolds(Want(cfg, SetOpen(st, st.queries[i].turn.curr, true), i, TcpSend))
    case InProgress => false
    case _ => !SwitchElseFinish(cfg, st, i, CodeConnect).1 && st.queries[i].answer.Answer?
  }

  /** The scan for a connection fails an assertion, one way or the other. */
  ghost predicate ScanAborts(cfg: Config, st: State, i: nat, env: Env, k: nat)
    requires Shape(cfg, st) && i < |st.queries|
  {
    WantConnectFails(cfg, st, i, env, k) || (st.queries[i].answer.Answer? && RunsOut(cfg, st, i, env, k))
  }

  /** Opening a connection does not change what a switch comes to. */
  lemma SwitchOpened(cfg: Config, st: State, i: nat)
    requires Shape(cfg, st) && i < |st.queries|
    ensures Shape(cfg, SetOpen(st, st.queries[i].turn.curr, true))
    ensures var a, b := SwitchElseFinish(cfg, SetOpen(st, st.queries[i].turn.curr, true), i, CodeConnect),
                        SwitchElseFinish(cfg, st, i, CodeConnect);
            a.1 == b.1 && a.0.queries[i].answer == b.0.queries[i].answer == st.queries[i].answer
  {
  }

  lemma ScanStep(cfg: Config, st: State, i: nat, env: Env, k: nat)
    requires Shape(cfg, st) && i < |st.queries|
    ensures WantConnect(cfg, st, i, env, k)
         == if st.servers[st.queries[i].turn.curr].open then Want(cfg, st, i, TcpSend)
            else var (st1, again) := Attempt(cfg, st, i, env.connect(i, k));
                 if again then WantConnect(cfg, st1, i, env, k + 1) else st1
    ensures var (st1, again) := Attempt(cfg, st, i, env.connect(i, k));
            ScanAborts(cfg, st, i, env, k)
            <==> !st.servers[st.queries[i].turn.curr].open
                 && (AttemptFails(cfg, st, i, env.connect(i, k)) || (again && ScanAborts(cfg, st1, i, env, k + 1)))
    ensures var (st1, again) := Attempt(cfg, st, i, env.connect(i, k));
            again ==> SwitchesLeft(cfg.N(), st1.queries[i].turn) < SwitchesLeft(cfg.N(), st.queries[i].turn)
  {
    hide Want, ConnectToWrite, SwitchElseFinish, ScanHolds;
    SwitchOpened(cfg, st, i);
  }

  lemma SuffixCases(cfg: Config, st: State, i: nat, env: Env)
    requires Shape(cfg, st) && i < |st.queries| && st.queries[i].status.Void?
    requires TriesSuffix(cfg, st.queries[i]) && !st.queries[i].tc
    ensures var q, r := st.queries[i], FsmSteps.QueryDone(cfg, st, i, env);
            if !NextJoin(cfg, q).Joins? then r == Set(st, i, Call(q.(search := q.search + 1, code := CodeConcatSearchList)))
            else if env.startOk then r == Want(cfg, Set(st, i, Restarted(cfg, q).(tries := q.tries + 1)), i, UdpSend)
            else r == Set(st, i, Call(Restarted(cfg, q).(code := CodeLaunchSearchList)))
  {
    hide Want;
  }

  /** What an event method did agrees with the specified outcome. */
  ghost predicate Follows(o: Outcome, a: State, b: State, aborted: bool) {
    match o
    case Idle => !aborted && b == a
    case Progress(c) => !aborted && b == c
    case Abort => aborted
  }

  /** The queries of `list` from `k` on still use connection `s`. */
  ghost predicate OnServer(st: State, list: seq<nat>, k: nat, s: nat) {
    && k <= |list|
    && (forall m, n | 0 <= m < n < |list| :: list[m] != list[n])
    && (forall m | 0 <= m < |list| :: list[m] < |st.queries|)
    && (forall m | k <= m < |list| :: TcpStatus(st.queries[list[m]].status) && st.queries[list[m]].turn.curr == s)
  }

  lemma MoveRound(cfg: Config, st: State, list: seq<nat>, k: nat, s: nat, env: Env)
    requires Core(cfg, st) && k < |list| && OnServer(st, list, k, s)
    ensures ShapeOf(cfg, MoveOn(cfg, st, list[k], CodeConnect, env), |st.queries|)
    ensures OnServer(MoveOn(cfg, st, list[k], CodeConnect, env), list, k + 1, s)
    ensures MoveAllOn(cfg, st, list[k..], env)
         == MoveAllOn(cfg, MoveOn(cfg, st, list[k], CodeConnect, env), list[k + 1..], env)
    ensures MoveAllOnFails(cfg, st, list[k..], env)
         <==> MoveOnFails(cfg, st, list[k], CodeConnect, env)
              || MoveAllOnFails(cfg, MoveOn(cfg, st, list[k], CodeConnect, env), list[k + 1..], env)
  {
    hide Consistent, MoveOn, MoveOnScanFails, Stuck;
    MoveOnCore(cfg, st, list[k], CodeConnect, env);
    OthersLower(cfg, st, MoveOn(cfg, st, list[k], CodeConnect, env), list[k]);
    assert list[k..][1..] == list[k + 1..];
  }

  lemma AffectedNone(qs: seq<Query>, s: nat)
    ensures Affected(qs, s, 0) == []
  {
  }

  lemma AffectedNext(qs: seq<Query>, s: nat, i: nat)
    requires i < |qs|
    ensures Affected(qs, s, i + 1)
         == Affected(qs, s, i) + if TcpStatus(qs[i].status) && qs[i].turn.curr == s then [i] else []
  {
    assert Affected(qs, s, i) + [] == Affected(qs, s, i);
  }

  lemma MoveNone(cfg: Config, st: State, list: seq<nat>, env: Env)
    requires Shape(cfg, st)
    ensures MoveAllOn(cfg, st, list[|list|..], env) == st && !MoveAllOnFails(cfg, st, list[|list|..], env)
  {
  }
}
