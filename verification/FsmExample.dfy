/** A run of the program as it stands in which two queries come to receive bodies on one
    connection. All answers are truncated over UDP. Query 0 gives up server 0 and waits for
    the answer of server 1, where query 1 waits too; when the body of query 1 is under way,
    the late answer of server 0 arrives, on the connection query 2 waits on. */
module FsmExample {
  import opened Families
  import opened FsmInvariant
  import opened FsmModel
  import opened FsmRuns
  import opened FsmSteps
  import opened Limits
  import opened Rotation

  const CFG := Config([Inet, Inet], 0, [], false)
  const OPTIONS := Options(false, false, 20)
  const RESPONSE: bv16 := 0x8100
  const TRUNCATED: bv16 := 0x8300

  function AtOnce(): Env {
    Env((i: nat, k: nat) => Immediate, true)
  }

  function Waiting(id: nat, status: Status, curr: nat, first: nat, tries: nat): Query {
    Query(id, status, Turn(curr, first, 0), -1, CodeVoid, TimerFor(status), false, 0, tries, NoAnswer, 0, false, OPTIONS)
  }

  function Receiving(id: nat, curr: nat, first: nat, tries: nat): Query {
    Waiting(id, TcpBody, curr, first, tries).(answer := Answer(MSG_LOW, MSG_HEADER))
  }

  function Conn(open: bool, writers: int, readers: int, headLen: int): Server {
    Server(open, 0, writers, readers, headLen)
  }

  function Resolving(qs: seq<Query>, s0: Server, s1: Server, writers: int, readers: int, next: nat): State {
    State(qs, [s0, s1], writers, readers, 0, 0, next % 2, next)
  }

  const CLOSED := Conn(false, 0, 0, -1)

  /** The first six states: three queries are submitted and sent. */
  function Sending(k: nat): State
    requires k <= 6
  {
    var q0, q1, q2 := Waiting(0, if k < 4 then UdpSend else UdpRecv, 0, 0, 1),
                      Waiting(1, if k < 5 then UdpSend else UdpRecv, 1, 1, 1),
                      Waiting(2, if k < 6 then UdpSend else UdpRecv, 0, 0, 1);
    if k == 0 then Resolving([], CLOSED, CLOSED, 0, 0, 0)
    else if k == 1 then Resolving([q0], CLOSED, CLOSED, 1, 0, 1)
    else if k == 2 then Resolving([q0, q1], CLOSED, CLOSED, 2, 0, 2)
    else Resolving([q0, q1, q2], CLOSED, CLOSED, 6 - k, k - 3, 3)
  }

  lemma Submitted(k: nat)
    requires k < 3
    ensures StepTo(CFG, Sending(k), Stimulus(Submit(OPTIONS, true), AtOnce()), Sending(k + 1))
  {
    var r := OnSubmit(CFG, Sending(k), OPTIONS, true);
    assert r.queries == Sending(k + 1).queries;
    assert r == Sending(k + 1);
  }

  lemma SentUdp(k: nat)
    requires 3 <= k < 6
    ensures StepTo(CFG, Sending(k), Stimulus(UdpWritable(Sent), AtOnce()), Sending(k + 1))
  {
    var a := Sending(k);
    assert a.queries[k - 3].status.UdpSend?;
    assert FirstIn(a.queries, UdpSend, 0) == k - 3;
    var r := Want(CFG, Done(CFG, a, k - 3), k - 3, UdpRecv);
    assert r.queries == Sending(k + 1).queries;
  }

  /** The states from there on. */
  function Tcp(k: nat): State
    requires 6 <= k <= 16
  {
    var u0, u1, u2 := Waiting(0, UdpRecv, 0, 0, 1), Waiting(1, UdpRecv, 1, 1, 1), Waiting(2, UdpRecv, 0, 0, 1);
    var w0, w1, w2 := Waiting(0, TcpSend, 0, 0, 1), Waiting(1, TcpSend, 1, 1, 1), Waiting(2, TcpSend, 0, 0, 1);
    var moved, late := Waiting(0, TcpSend, 1, 0, 2), Waiting(0, TcpHead, 1, 0, 2);
    var h1, h2 := Waiting(1, TcpHead, 1, 1, 1), Waiting(2, TcpHead, 0, 0, 1);
    var b0, b1 := Receiving(0, 1, 0, 2), Receiving(1, 1, 1, 1);
    match k
    case 6 => Resolving([u0, u1, u2], CLOSED, CLOSED, 0, 3, 3)
    case 7 => Resolving([w0, u1, u2], Conn(true, 1, 0, -1), CLOSED, 0, 2, 3)
    case 8 => Resolving([w0, w1, u2], Conn(true, 1, 0, -1), Conn(true, 1, 0, -1), 0, 1, 3)
    case 9 => Resolving([w0, w1, w2], Conn(true, 2, 0, -1), Conn(true, 1, 0, -1), 0, 0, 3)
    case 10 => Resolving([Waiting(0, TcpHead, 0, 0, 1), w1, w2], Conn(true, 1, 1, 0), Conn(true, 1, 0, -1), 0, 0, 3)
    case 11 => Resolving([moved, w1, w2], Conn(true, 1, 0, 0), Conn(true, 2, 0, -1), 0, 0, 3)
    case 12 => Resolving([late, w1, w2], Conn(true, 1, 0, 0), Conn(true, 1, 1, 0), 0, 0, 3)
    case 13 => Resolving([late, h1, w2], Conn(true, 1, 0, 0), Conn(true, 0, 2, 0), 0, 0, 3)
    case 14 => Resolving([late, h1, h2], Conn(true, 0, 1, 0), Conn(true, 0, 2, 0), 0, 0, 3)
    case 15 => Resolving([late, b1, h2], Conn(true, 0, 1, 0), Conn(true, 0, 2, TCP_HEADER), 0, 0, 3)
    case 16 => Resolving([b0, b1, h2], Conn(true, 0, 1, TCP_HEADER), Conn(true, 0, 2, TCP_HEADER), 0, 0, 3)
  }

  function TcpEvent(k: nat): Event
    requires 6 <= k < 16
  {
    match k
    case 6 => UdpReadable(Inet, Datagram(MSG_LOW, 0, TRUNCATED, 0))
    case 7 => UdpReadable(Inet, Datagram(MSG_LOW, 1, TRUNCATED, 0))
    case 8 => UdpReadable(Inet, Datagram(MSG_LOW, 2, TRUNCATED, 0))
    case 9 => TcpWritable(0, Sent)
    case 10 => HeadTimeout(0)
    case 11 => TcpWritable(1, Sent)
    case 12 => TcpWritable(1, Sent)
    case 13 => TcpWritable(0, Sent)
    case 14 => TcpReadable(1, Bytes(TCP_HEADER), Header(MSG_LOW, 1, RESPONSE, 0))
    case 15 => TcpReadable(0, Bytes(TCP_HEADER), Header(MSG_LOW, 0, RESPONSE, 0))
  }

  ghost predicate TcpStep(k: nat)
    requires 6 <= k < 16
  {
    StepTo(CFG, Tcp(k), Stimulus(TcpEvent(k), AtOnce()), Tcp(k + 1))
  }

  lemma {:induction false} NobodyConnects(st: State, s: nat, j: nat)
    requires Shape(CFG, st) && s < CFG.N() && forall k | 0 <= k < |st.queries| :: !st.queries[k].status.TcpConnect?
    ensures ConnectToWrite(CFG, st, s, j) == st
    decreases |st.queries| - j
  {
    if j < |st.queries| {
      NobodyConnects(st, s, j + 1);
    }
  }

  lemma FirstOf(qs: seq<Query>, i: nat)
    requires i < |qs|
    ensures (forall k | 0 <= k < i :: qs[k].id != qs[i].id) ==> FirstWithId(qs, qs[i].id, 0) == i
    ensures (forall k | 0 <= k < i :: qs[k].status != qs[i].status) ==> FirstIn(qs, qs[i].status, 0) == i
  {
  }

  /** A truncated answer for query `i`, whose server is connected, or connects at once. */
  lemma TruncatedStep(a: State, i: nat, b: State)
    requires Shape(CFG, a) && a.nextServer < CFG.N() && i < |a.queries| && a.queries[i].status.UdpRecv?
    requires forall k | 0 <= k < |a.queries| :: !a.queries[k].status.TcpConnect? && (k < i ==> a.queries[k].id != a.queries[i].id)
    requires !a.queries[i].options.needRa
    requires var c := a.queries[i].turn.curr;
             var st1 := Done(CFG, a, i);
             c < |st1.servers| && Shape(CFG, SetOpen(st1, c, true)) && i < |st1.queries|
             && b == Want(CFG, SetOpen(st1, c, true), i, TcpSend)
    ensures StepTo(CFG, a, Stimulus(UdpReadable(Inet, Datagram(MSG_LOW, a.queries[i].id, TRUNCATED, 0)), AtOnce()), b)
  {
    hide Done, Want;
    var c := a.queries[i].turn.curr;
    FirstOf(a.queries, i);
    DoneShape(CFG, a, i);
    var st1 := Done(CFG, a, i);
    WantShape(CFG, SetOpen(st1, c, true), i, TcpSend);
    NobodyConnects(b, c, 0);
    if st1.servers[c].open {
      assert SetOpen(st1, c, true).servers == st1.servers;
    }
    assert TRUNCATED & MASK_TC != 0 && CheckAnswerFlags(TRUNCATED, false).CodeOk?;
  }

  lemma SentStep(a: State, s: nat, i: nat, b: State)
    requires Shape(CFG, a) && a.nextServer < CFG.N() && i < |a.queries| && s < CFG.N()
    requires a.queries[i].status.TcpSend? && forall k | 0 <= k < i :: !a.queries[k].status.TcpSend?
    requires a.servers[s].open && a.servers[s].writers > 0
    requires b == Want(CFG, Done(CFG, a, i), i, TcpHead)
    ensures StepTo(CFG, a, Stimulus(TcpWritable(s, Sent), AtOnce()), b)
  {
    hide Done, Want;
    FirstOf(a.queries, i);
  }

  /** A whole header on connection `s` for query `i`, wherever that one waits. */
  lemma HeaderStep(a: State, s: nat, i: nat, b: State)
    requires Shape(CFG, a) && a.nextServer < CFG.N() && i < |a.queries| && s < CFG.N()
    requires a.queries[i].status.TcpHead? && a.queries[i].answer.NoAnswer? && !a.queries[i].options.needRa
    requires forall k | 0 <= k < i :: a.queries[k].id != a.queries[i].id
    requires a.servers[s].open && a.servers[s].readers > 0 && a.servers[s].headLen == 0
    requires forall k | 0 <= k < |a.queries| && a.queries[k].turn.curr == s :: !a.queries[k].status.TcpBody?
    requires s == a.queries[i].turn.curr || a.servers[a.queries[i].turn.curr].headLen == TCP_HEADER
    requires var d := Done(CFG, SetHeadLen(a, s, TCP_HEADER), i);
             ShapeOf(CFG, d, |a.queries|)
             && var q := d.queries[i].(answer := Answer(MSG_LOW, MSG_HEADER), rcode := 0, tc := false);
                b == Want(CFG, Set(d, i, q), i, TcpBody)
    ensures StepTo(CFG, a, Stimulus(TcpReadable(s, Bytes(TCP_HEADER), Header(MSG_LOW, a.queries[i].id, RESPONSE, 0)), AtOnce()), b)
  {
    hide Done, Want;
    FirstOf(a.queries, i);
    assert FirstBody(a.queries, s, 0) == |a.queries|;
    assert CheckAnswerFlags(RESPONSE, false).CodeOk? && RESPONSE & MASK_TC == 0;
  }

  lemma Truncated0()
    ensures TcpStep(6)
  {
    var a, b := Tcp(6), Tcp(7);
    var w := Want(CFG, SetOpen(Done(CFG, a, 0), a.queries[0].turn.curr, true), 0, TcpSend);
    assert w.queries == b.queries && w.servers == b.servers;
    TruncatedStep(a, 0, b);
  }

  lemma Truncated1()
    ensures TcpStep(7)
  {
    var a, b := Tcp(7), Tcp(8);
    var w := Want(CFG, SetOpen(Done(CFG, a, 1), a.queries[1].turn.curr, true), 1, TcpSend);
    assert w.queries == b.queries && w.servers == b.servers;
    TruncatedStep(a, 1, b);
  }

  lemma Truncated2()
    ensures TcpStep(8)
  {
    var a, b := Tcp(8), Tcp(9);
    var w := Want(CFG, SetOpen(Done(CFG, a, 2), a.queries[2].turn.curr, true), 2, TcpSend);
    assert w.queries == b.queries && w.servers == b.servers;
    TruncatedStep(a, 2, b);
  }

  lemma Sent0()
    ensures TcpStep(9)
  {
    var a, b := Tcp(9), Tcp(10);
    var w := Want(CFG, Done(CFG, a, 0), 0, TcpHead);
    assert w.queries == b.queries && w.servers == b.servers;
    SentStep(a, 0, 0, b);
  }

  lemma SentAgain0()
    ensures TcpStep(11)
  {
    var a, b := Tcp(11), Tcp(12);
    var w := Want(CFG, Done(CFG, a, 0), 0, TcpHead);
    assert w.queries == b.queries && w.servers == b.servers;
    SentStep(a, 1, 0, b);
  }

  lemma Sent1()
    ensures TcpStep(12)
  {
    var a, b := Tcp(12), Tcp(13);
    var w := Want(CFG, Done(CFG, a, 1), 1, TcpHead);
    assert w.queries == b.queries && w.servers == b.servers;
    SentStep(a, 1, 1, b);
  }

  lemma Sent2()
    ensures TcpStep(13)
  {
    var a, b := Tcp(13), Tcp(14);
    var w := Want(CFG, Done(CFG, a, 2), 2, TcpHead);
    assert w.queries == b.queries && w.servers == b.servers;
    SentStep(a, 0, 2, b);
  }

  lemma Header1()
    ensures TcpStep(14)
  {
    var a, b := Tcp(14), Tcp(15);
    var d := Done(CFG, SetHeadLen(a, 1, TCP_HEADER), 1);
    var q := d.queries[1].(answer := Answer(MSG_LOW, MSG_HEADER), rcode := 0, tc := false);
    var w := Want(CFG, Set(d, 1, q), 1, TcpBody);
    assert w.queries == b.queries && w.servers == b.servers;
    HeaderStep(a, 1, 1, b);
  }

  lemma Header0()
    ensures TcpStep(15)
  {
    var a, b := Tcp(15), Tcp(16);
    var d := Done(CFG, SetHeadLen(a, 0, TCP_HEADER), 0);
    var q := d.queries[0].(answer := Answer(MSG_LOW, MSG_HEADER), rcode := 0, tc := false);
    var w := Want(CFG, Set(d, 0, q), 0, TcpBody);
    assert w.queries == b.queries && w.servers == b.servers;
    HeaderStep(a, 0, 0, b);
  }

  lemma GivenUp()
    ensures TcpStep(10)
  {
    var a := Tcp(10);
    var st1 := SwitchElseFinish(CFG, Leave(CFG, a, 0), 0, CodeTimeout).0;
    var w := Want(CFG, st1, 0, TcpSend);
    assert w.queries == Tcp(11).queries && w.servers == Tcp(11).servers;
    assert WantConnect(CFG, st1, 0, AtOnce(), 0) == w;
  }

  function States(): seq<State> {
    seq(17, k requires 0 <= k < 17 => if k < 6 then Sending(k) else Tcp(k))
  }

  function Stimuli(): seq<Stimulus> {
    seq(16, k requires 0 <= k < 16 =>
              Stimulus(if k < 3 then Submit(OPTIONS, true) else if k < 6 then UdpWritable(Sent) else TcpEvent(k), AtOnce()))
  }

  /** It is a run of the program as it stands, and in its last state queries 0 and 1 both receive
      bodies on the connection to server 1. */
  lemma TwoBodies()
    ensures !CFG.repaired && Run(CFG, States(), Stimuli())
    ensures !OneBody(States()[16])
  {
    hide StepTo, Tcp, Sending, TcpEvent;
    var sts, xs := States(), Stimuli();
    forall k | 0 <= k < 16
      ensures StepAt(CFG, sts, xs, k)
    {
      ExampleStep(k);
    }
    Ends();
  }

  lemma ExampleStep(k: nat)
    requires k < 16
    ensures StepAt(CFG, States(), Stimuli(), k)
  {
    hide StepTo, Tcp, Sending, TcpEvent;
    if k < 3 {
      Submitted(k);
    } else if k < 6 {
      SentUdp(k);
      SameState();
    } else {
      ExampleTcp(k);
    }
  }

  lemma SameState()
    ensures Sending(6) == Tcp(6)
  {
  }

  lemma ExampleTcp(k: nat)
    requires 6 <= k < 16
    ensures TcpStep(k)
  {
    hide TcpStep;
    match k
    case 6 => Truncated0();
    case 7 => Truncated1();
    case 8 => Truncated2();
    case 9 => Sent0();
    case 10 => GivenUp();
    case 11 => SentAgain0();
    case 12 => Sent1();
    case 13 => Sent2();
    case 14 => Header1();
    case 15 => Header0();
  }

  lemma Ends()
    ensures Initial(CFG, Sending(0)) && !OneBody(Tcp(16))
  {
    var qs := Tcp(16).queries;
    assert qs[0].status.TcpBody? && qs[1].status.TcpBody?;
  }
}
