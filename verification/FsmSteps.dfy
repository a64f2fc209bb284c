/** The events of the query state machine, as functions of the old state and of
    what the sockets answer. An assertion of the program that fails is an
    `Abort` outcome. */
module FsmSteps {
  import opened Families
  import opened FsmModel
  import opened Limits
  import opened Rotation
  import opened RuliList

  // ------------------------------------------------------------ environment

  /** What creating and connecting a TCP socket gives. */
  datatype Connect = NoSocket | Immediate | InProgress | Refused

  /** `connect(i, k)` is the k-th connection attempt query `i` makes within the event. */
  datatype Env = Env(connect: (nat, nat) -> Connect, startOk: bool)

  datatype SendResult = SendWouldBlock | SendFail | Sent
  datatype RecvResult = RecvWouldBlock | RecvClosed | RecvFail | Bytes(rd: nat)
  datatype Header = Header(msgLen: nat, id: nat, flags: bv16, rcode: nat)
  datatype Datagram = NoDatagram | Datagram(size: nat, id: nat, flags: bv16, rcode: nat)

  datatype Event =
    | Submit(options: Options, starts: bool)
    | Delete(index: nat)
    | UdpWritable(sent: SendResult)
    | UdpReadable(family: Family, datagram: Datagram)
    | UdpTimeout(index: nat)
    | HeadTimeout(index: nat)
    | BodyTimeout(index: nat)
    | ConnectResult(server: nat, connected: bool)
    | TcpWritable(server: nat, sent: SendResult)
    | TcpReadable(server: nat, received: RecvResult, header: Header)
    | FinishNow(index: nat)

  datatype Outcome = Idle | Progress(state: State) | Abort

  // ----------------------------------------------------------- answer flags

  const MASK_QR: bv16 := 0x8000
  const MASK_OPCODE: bv16 := 0x3800
  const MASK_TC: bv16 := 0x0200
  const MASK_RD: bv16 := 0x0100
  const MASK_RA: bv16 := 0x0080
  const MASK_Z: bv16 := 0x0010

  function CheckAnswerFlags(flags: bv16, needRa: bool): Code {
    if flags & MASK_QR == 0 then CodeAnswerFlagQr
    else if flags & MASK_OPCODE != 0 then CodeAnswerOpcode
    else if flags & MASK_RD == 0 then CodeAnswerFlagRd
    else if needRa && flags & MASK_RA == 0 then CodeAnswerFlagRa
    else if flags & MASK_Z != 0 then CodeAnswerFlagZ
    else CodeOk
  }

  /** The flags of section 4.1.1 of RFC 1035: a response, OPCODE (four bits) zero,
      RD copied back, Z (three bits) zero. */
  ghost predicate Rfc1035Response(flags: bv16, needRa: bool) {
    && flags & 0x8000 != 0
    && flags & 0x7800 == 0
    && flags & 0x0100 != 0
    && (needRa ==> flags & 0x0080 != 0)
    && flags & 0x0070 == 0
  }

  /** The masks are one bit of OPCODE and two bits of Z short: the program accepts
      exactly the responses that are correct once those three bits are cleared. Each error code
      is for the first fault in the order of the flags QR, OPCODE, RD, RA and Z. */
  lemma AcceptedFlags(flags: bv16, needRa: bool)
    ensures CheckAnswerFlags(flags, needRa).CodeOk? <==> Rfc1035Response(flags & 0xBF9F, needRa)
    ensures Rfc1035Response(flags, needRa) <==>
            CheckAnswerFlags(flags, needRa).CodeOk? && flags & 0x4060 == 0
    ensures CheckAnswerFlags(0xC100, false).CodeOk? && !Rfc1035Response(0xC100, false)
    ensures var code := CheckAnswerFlags(flags, needRa);
            && (code.CodeAnswerFlagQr? <==> flags & 0x8000 == 0)
            && (code.CodeAnswerOpcode? <==> flags & 0x8000 != 0 && flags & 0x3800 != 0)
            && (code.CodeAnswerFlagRd? <==> flags & 0xB800 == 0x8000 && flags & 0x0100 == 0)
            && (code.CodeAnswerFlagRa? <==> flags & 0xB900 == 0x8100 && needRa && flags & 0x0080 == 0)
            && (code.CodeAnswerFlagZ? <==> flags & 0xB900 == 0x8100 && (needRa ==> flags & 0x0080 != 0) && flags & 0x0010 != 0)
  {
    var f := flags & 0xBF9F;
    assert f & 0x8000 == flags & 0x8000;
    assert f & 0x7800 == flags & 0x3800;
    assert f & 0x0100 == flags & 0x0100;
    assert f & 0x0080 == flags & 0x0080;
    assert f & 0x0070 == flags & 0x0010;
    assert flags & 0xB800 == 0x8000 <==> flags & 0x8000 != 0 && flags & 0x3800 == 0;
    assert flags & 0xB900 == 0x8100 <==> flags & 0x8000 != 0 && flags & 0x3800 == 0 && flags & 0x0100 != 0;
  }

  // ------------------------------------------------------------- well-shaped

  ghost predicate ShapeOf(cfg: Config, st: State, n: nat) {
    Shape(cfg, st) && |st.queries| == n
  }

  function Set(st: State, i: nat, q: Query): State
    requires i < |st.queries|
  {
    st.(queries := st.queries[i := q])
  }

  function SetOpen(st: State, s: nat, open: bool): State
    requires s < |st.servers|
  {
    st.(servers := st.servers[s := st.servers[s].(open := open)])
  }

  /** The answer buffer is freed. */
  function Release(st: State, i: nat): State
    requires i < |st.queries|
  {
    Set(st, i, st.queries[i].(answer := NoAnswer))
  }

  // --------------------------------------------------------- compound moves

  /** Tries the next server; when none is left, schedules the finish with `code`. A buffer
      that is left then fails an assertion: see `Stuck`. */
  function SwitchElseFinish(cfg: Config, st: State, i: nat, code: Code): (r: (State, bool))
    requires Shape(cfg, st) && i < |st.queries|
    ensures ShapeOf(cfg, r.0, |st.queries|)
  {
    var q := st.queries[i];
    SwitchExact(cfg.N(), q.turn);
    var (turn, ok) := Switch(cfg.N(), q.turn);
    if ok then (Set(st, i, q.(turn := turn, tries := q.tries + 1)), true)
    else (Set(st, i, q.(turn := turn, code := code, finish := true)), false)
  }

  /** Connected: queries waiting for the connection to `s`, from index `j` on, now wait to send. */
  function ConnectToWrite(cfg: Config, st: State, s: nat, j: nat): (r: State)
    requires Shape(cfg, st) && s < cfg.N()
    ensures ShapeOf(cfg, r, |st.queries|)
    decreases |st.queries| - j
  {
    if j >= |st.queries| then st
    else if st.queries[j].status.TcpConnect? && st.queries[j].turn.curr == s then
      ConnectToWrite(cfg, Want(cfg, Done(cfg, st, j), j, TcpSend), s, j + 1)
    else ConnectToWrite(cfg, st, s, j + 1)
  }

  /** The assertion of that scan: whoever waits to connect has a descriptor. */
  predicate ScanHolds(st: State) {
    forall k | 0 <= k < |st.queries| && st.queries[k].status.TcpConnect? && st.queries[k].turn.curr < |st.servers| ::
      st.servers[st.queries[k].turn.curr].open
  }

  /** One attempt to connect to the current server; true when the next one is to be tried. */
  function Attempt(cfg: Config, st: State, i: nat, result: Connect): (r: (State, bool))
    requires Shape(cfg, st) && i < |st.queries|
    ensures ShapeOf(cfg, r.0, |st.queries|)
    ensures r.1 ==> SwitchesLeft(cfg.N(), r.0.queries[i].turn) < SwitchesLeft(cfg.N(), st.queries[i].turn)
  {
    var s := st.queries[i].turn.curr;
    SwitchExact(cfg.N(), st.queries[i].turn);
    match result
    case Immediate => (ConnectToWrite(cfg, Want(cfg, SetOpen(st, s, true), i, TcpSend), s, 0), false)
    case InProgress => (Want(cfg, SetOpen(st, s, true), i, TcpConnect), false)
    case NoSocket => SwitchElseFinish(cfg, st, i, CodeConnect)
    case Refused =>
      // the descriptor stays set although the connection failed
      SwitchElseFinish(cfg, SetOpen(st, s, true), i, CodeConnect)
  }

  /** Scans the servers from the current one for a connection to wait on. */
  function WantConnect(cfg: Config, st: State, i: nat, env: Env, k: nat): (r: State)
    requires Shape(cfg, st) && i < |st.queries|
    ensures ShapeOf(cfg, r, |st.queries|)
    decreases SwitchesLeft(cfg.N(), st.queries[i].turn)
  {
    if st.servers[st.queries[i].turn.curr].open then Want(cfg, st, i, TcpSend)
    else
      var (st1, again) := Attempt(cfg, st, i, env.connect(i, k));
      if again then WantConnect(cfg, st1, i, env, k + 1) else st1
  }

  /** The scan ends with a connection made at once, and the assertion of the scan that
      follows fails. */
  predicate WantConnectFails(cfg: Config, st: State, i: nat, env: Env, k: nat)
    requires Shape(cfg, st) && i < |st.queries|
    decreases SwitchesLeft(cfg.N(), st.queries[i].turn)
  {
    var s := st.queries[i].turn.curr;
    if st.servers[s].open then false
    else if env.connect(i, k).Immediate? then !ScanHolds(Want(cfg, SetOpen(st, s, true), i, TcpSend))
    else
      var (st1, again) := Attempt(cfg, st, i, env.connect(i, k));
      again && WantConnectFails(cfg, st1, i, env, k + 1)
  }

  /** The scan ends without a server to wait for: none on the way is connected, and every
      attempt fails. */
  predicate RunsOut(cfg: Config, st: State, i: nat, env: Env, k: nat)
    requires Shape(cfg, st) && i < |st.queries|
    decreases SwitchesLeft(cfg.N(), st.queries[i].turn)
  {
    var result := env.connect(i, k);
    if st.servers[st.queries[i].turn.curr].open || result.Immediate? || result.InProgress? then false
    else
      var (st1, again) := Attempt(cfg, st, i, result);
      again ==> RunsOut(cfg, st1, i, env, k + 1)
  }

  /** Among the first `m` queries, those in a TCP status on server `s`. */
  function Affected(qs: seq<Query>, s: nat, m: nat): (list: seq<nat>)
    requires m <= |qs|
    ensures forall k | 0 <= k < |list| :: list[k] < m && TcpStatus(qs[list[k]].status) && qs[list[k]].turn.curr == s
    ensures forall j | 0 <= j < m && TcpStatus(qs[j].status) && qs[j].turn.curr == s :: j in list
    ensures forall k, l | 0 <= k < l < |list| :: list[k] < list[l]
  {
    if m == 0 then []
    else if TcpStatus(qs[m - 1].status) && qs[m - 1].turn.curr == s then Affected(qs, s, m - 1) + [m - 1]
    else Affected(qs, s, m - 1)
  }

  /** Query `i` stops waiting; the program as it stands keeps the buffer of its answer. */
  function Leave(cfg: Config, st: State, i: nat): (r: State)
    requires Shape(cfg, st) && i < |st.queries|
    ensures ShapeOf(cfg, r, |st.queries|)
  {
    if cfg.repaired then Release(Done(cfg, st, i), i) else Done(cfg, st, i)
  }

  /** One affected query leaves the failed connection for its next server. */
  function MoveOn(cfg: Config, st: State, i: nat, code: Code, env: Env): (r: State)
    requires Shape(cfg, st) && i < |st.queries|
    ensures ShapeOf(cfg, r, |st.queries|)
  {
    var (st1, ok) := SwitchElseFinish(cfg, Leave(cfg, st, i), i, code);
    if ok then WantConnect(cfg, st1, i, env, 0) else st1
  }

  /** The scan after a connection made at once fails its assertion. */
  predicate MoveOnScanFails(cfg: Config, st: State, i: nat, code: Code, env: Env)
    requires Shape(cfg, st) && i < |st.queries|
  {
    var (st1, ok) := SwitchElseFinish(cfg, Leave(cfg, st, i), i, code);
    ok && WantConnectFails(cfg, st1, i, env, 0)
  }

  /** A buffer is left when the finish is to be scheduled, which fails an assertion. */
  predicate Stuck(cfg: Config, st: State, i: nat, code: Code, env: Env)
    requires Shape(cfg, st) && i < |st.queries|
  {
    var (st1, ok) := SwitchElseFinish(cfg, Leave(cfg, st, i), i, code);
    st1.queries[i].answer.Answer? && (ok ==> RunsOut(cfg, st1, i, env, 0))
  }

  predicate MoveOnFails(cfg: Config, st: State, i: nat, code: Code, env: Env)
    requires Shape(cfg, st) && i < |st.queries|
  {
    MoveOnScanFails(cfg, st, i, code, env) || Stuck(cfg, st, i, code, env)
  }

  function MoveAllOn(cfg: Config, st: State, list: seq<nat>, env: Env): (r: State)
    requires Shape(cfg, st) && forall k | 0 <= k < |list| :: list[k] < |st.queries|
    ensures ShapeOf(cfg, r, |st.queries|)
    decreases |list|
  {
    if list == [] then st
    else MoveAllOn(cfg, MoveOn(cfg, st, list[0], CodeConnect, env), list[1..], env)
  }

  predicate AnyScanFails(cfg: Config, st: State, list: seq<nat>, env: Env)
    requires Shape(cfg, st) && forall k | 0 <= k < |list| :: list[k] < |st.queries|
    decreases |list|
  {
    list != [] &&
    (MoveOnScanFails(cfg, st, list[0], CodeConnect, env)
     || AnyScanFails(cfg, MoveOn(cfg, st, list[0], CodeConnect, env), list[1..], env))
  }

  predicate AnyStuck(cfg: Config, st: State, list: seq<nat>, env: Env)
    requires Shape(cfg, st) && forall k | 0 <= k < |list| :: list[k] < |st.queries|
    decreases |list|
  {
    list != [] &&
    (Stuck(cfg, st, list[0], CodeConnect, env)
     || AnyStuck(cfg, MoveOn(cfg, st, list[0], CodeConnect, env), list[1..], env))
  }

  predicate MoveAllOnFails(cfg: Config, st: State, list: seq<nat>, env: Env)
    requires Shape(cfg, st) && forall k | 0 <= k < |list| :: list[k] < |st.queries|
  {
    AnyScanFails(cfg, st, list, env) || AnyStuck(cfg, st, list, env)
  }

  predicate ConnectNextFails(cfg: Config, st: State, s: nat, env: Env)
    requires Shape(cfg, st) && s < cfg.N()
  {
    MoveAllOnFails(cfg, SetOpen(st, s, false), Affected(st.queries, s, |st.queries|), env)
  }

  /** Connection `s` failed: close it and move every query using it on. */
  function ConnectNext(cfg: Config, st: State, s: nat, env: Env): (r: State)
    requires Shape(cfg, st) && s < cfg.N()
    ensures ShapeOf(cfg, r, |st.queries|)
  {
    MoveAllOn(cfg, SetOpen(st, s, false), Affected(st.queries, s, |st.queries|), env)
  }

  function Call(q: Query): Query {
    q.(calls := q.calls + 1)
  }

  /** The name asked for, joined with the next suffix. */
  function NextJoin(cfg: Config, q: Query): Join {
    if 0 <= q.search + 1 < cfg.SearchSize()
    then JoinLengths(q.options.nameLen, cfg.suffixes[q.search + 1], DNAME_ENCODED) else TooLong
  }

  /** The result leads to a suffix, and an assertion about the names to be joined fails. */
  predicate ResultFails(cfg: Config, q: Query) {
    TriesSuffix(cfg, q) && !q.tc && NextJoin(cfg, q).Asserts?
  }

  /** The query has a result: try the next search suffix, or call back. */
  function QueryDone(cfg: Config, st: State, i: nat, env: Env): (r: State)
    requires Shape(cfg, st) && i < |st.queries|
    ensures ShapeOf(cfg, r, |st.queries|)
  {
    var q0 := st.queries[i];
    var q := if q0.code.CodeOk? && q0.tc then q0.(code := CodeAnswerTrunc) else q0;
    if !TriesSuffix(cfg, q) then Set(st, i, Call(q))
    else
      var q1 := q.(search := q.search + 1);
      if !NextJoin(cfg, q).Joins? then Set(st, i, Call(q1.(code := CodeConcatSearchList)))
      else
        var q2 := q1.(answer := NoAnswer, code := CodeVoid, turn := Turn(q.turn.curr, q.turn.curr, cfg.retry));
        if env.startOk then Want(cfg, Set(st, i, q2.(tries := q.tries + 1)), i, UdpSend)
        else Set(st, i, Call(q2.(code := CodeLaunchSearchList)))
  }

  // ------------------------------------------------------------------ scans

  /** The first query, from `j` on, in status `s`; the number of queries if none is. */
  function FirstIn(qs: seq<Query>, s: Status, j: nat): (i: nat)
    requires j <= |qs|
    ensures j <= i <= |qs|
    ensures i < |qs| ==> qs[i].status == s
    ensures forall k | j <= k < i :: qs[k].status != s
    decreases |qs| - j
  {
    if j == |qs| || qs[j].status == s then j else FirstIn(qs, s, j + 1)
  }

  function FirstWithId(qs: seq<Query>, id: nat, j: nat): (i: nat)
    requires j <= |qs|
    ensures j <= i <= |qs|
    ensures i < |qs| ==> qs[i].id == id
    ensures forall k | j <= k < i :: qs[k].id != id
    decreases |qs| - j
  {
    if j == |qs| || qs[j].id == id then j else FirstWithId(qs, id, j + 1)
  }

  function FirstBody(qs: seq<Query>, s: nat, j: nat): (i: nat)
    requires j <= |qs|
    ensures j <= i <= |qs|
    ensures i < |qs| ==> qs[i].turn.curr == s && qs[i].status.TcpBody?
    ensures forall k | j <= k < i :: !(qs[k].turn.curr == s && qs[k].status.TcpBody?)
    decreases |qs| - j
  {
    if j == |qs| || (qs[j].turn.curr == s && qs[j].status.TcpBody?) then j else FirstBody(qs, s, j + 1)
  }

  // ----------------------------------------------------------------- events

  function NewQuery(cfg: Config, st: State, options: Options): Query {
    Query(st.nextId, Void, Turn(st.nextServer, st.nextServer, cfg.retry), -1, CodeVoid, NoTimer,
          false, 0, 0, NoAnswer, 0, false, options)
  }

  function OnSubmit(cfg: Config, st: State, options: Options, starts: bool): State
    requires cfg.N() > 0 && Shape(cfg, st) && st.nextServer < cfg.N()
  {
    var q := NewQuery(cfg, st, options);
    var st1 := st.(queries := st.queries + [if starts then q.(tries := 1) else q],
                   nextServer := Following(cfg.N(), st.nextServer),
                   nextId := (st.nextId + 1) % 0x1_0000);
    if starts then Want(cfg, st1, |st.queries|, UdpSend) else st1
  }

  function OnDelete(cfg: Config, st: State, i: nat): State
    requires Shape(cfg, st) && i < |st.queries|
  {
    st.(servers := Done(cfg, st, i).servers,
        udpWriters := Done(cfg, st, i).udpWriters, udpReaders := Done(cfg, st, i).udpReaders,
        udp6Writers := Done(cfg, st, i).udp6Writers, udp6Readers := Done(cfg, st, i).udp6Readers,
        queries := Dropped(st.queries, i))
  }

  /** Waits to send again, after a failure in UDP. */
  function Resend(cfg: Config, st: State, i: nat, code: Code): State
    requires Shape(cfg, st) && i < |st.queries|
  {
    var (st1, ok) := SwitchElseFinish(cfg, Done(cfg, st, i), i, code);
    if ok then Want(cfg, st1, i, UdpSend) else st1
  }

  function OnUdpWritable(cfg: Config, st: State, sent: SendResult): Outcome
    requires Shape(cfg, st)
  {
    var i := FirstIn(st.queries, UdpSend, 0);
    if i == |st.queries| then Abort
    else match sent
      case SendWouldBlock => Idle
      case SendFail => Progress(Resend(cfg, st, i, CodeSend))
      case Sent => Progress(Want(cfg, Done(cfg, st, i), i, UdpRecv))
  }

  function OnUdpReadable(cfg: Config, st: State, family: Family, d: Datagram, env: Env): Outcome
    requires Shape(cfg, st)
  {
    if d.NoDatagram? || d.size > DATAGRAM_HIGH || d.size < MSG_HEADER then Idle
    else
      var i := FirstWithId(st.queries, d.id, 0);
      if i == |st.queries| || !st.queries[i].status.UdpRecv? then Idle
      else if cfg.families[st.queries[i].turn.curr] != family then Abort
      else if UdpAnswerFails(cfg, st, i, d, env) then Abort
      else Progress(UdpAnswered(cfg, st, i, d, env))
  }

  predicate UdpAnswerFails(cfg: Config, st: State, i: nat, d: Datagram, env: Env)
    requires Shape(cfg, st) && i < |st.queries| && d.Datagram?
  {
    && CheckAnswerFlags(d.flags, st.queries[i].options.needRa).CodeOk?
    && if d.flags & MASK_TC != 0 then WantConnectFails(cfg, Done(cfg, st, i), i, env, 0)
       else ResultFails(cfg, st.queries[i].(code := CodeOk, rcode := d.rcode, tc := false))
  }

  /** The datagram answers query `i`: an error, a truncated answer or an answer. */
  function UdpAnswered(cfg: Config, st: State, i: nat, d: Datagram, env: Env): State
    requires Shape(cfg, st) && i < |st.queries| && d.Datagram?
  {
    var st1 := Done(cfg, st, i);
    var code := CheckAnswerFlags(d.flags, st.queries[i].options.needRa);
    if !code.CodeOk? then
      QueryDone(cfg, Set(st1, i, st1.queries[i].(code := code)), i, env)
    else if d.flags & MASK_TC != 0 then
      WantConnect(cfg, st1, i, env, 0)
    else
      var q := st1.queries[i].(answer := Answer(d.size, d.size), code := CodeOk, rcode := d.rcode, tc := false);
      QueryDone(cfg, Set(st1, i, q), i, env)
  }

  function OnTcpWritable(cfg: Config, st: State, s: nat, sent: SendResult, env: Env): Outcome
    requires Shape(cfg, st) && s < cfg.N()
  {
    var i := FirstIn(st.queries, TcpSend, 0);
    if i == |st.queries| then Abort
    else match sent
      case SendWouldBlock => Idle
      case SendFail => Broken(cfg, st, s, env)
      case Sent => Progress(Want(cfg, Done(cfg, st, i), i, TcpHead))
  }

  function OnConnectResult(cfg: Config, st: State, s: nat, connected: bool, env: Env): Outcome
    requires Shape(cfg, st) && s < cfg.N()
  {
    if |st.queries| == 0 then Abort
    else if !connected then Broken(cfg, st, s, env)
    else if !ScanHolds(st) then Abort
    else Progress(ConnectToWrite(cfg, st, s, 0))
  }

  /** The answer of query `i` over TCP does not come in time. */
  function OnReadTimeout(cfg: Config, st: State, i: nat, env: Env): Outcome
    requires Shape(cfg, st) && i < |st.queries|
  {
    if MoveOnFails(cfg, st, i, CodeTimeout, env) then Abort else Progress(MoveOn(cfg, st, i, CodeTimeout, env))
  }

  /** Bytes of the answer body of query `i`. */
  function OnBody(cfg: Config, st: State, i: nat, received: RecvResult, env: Env): Outcome
    requires Shape(cfg, st) && i < |st.queries| && st.queries[i].status.TcpBody? && st.queries[i].answer.Answer?
  {
    var q := st.queries[i];
    match received
    case RecvWouldBlock => Idle
    case RecvClosed => if cfg.repaired then Broken(cfg, st, q.turn.curr, env) else Abort
    case RecvFail => Broken(cfg, st, q.turn.curr, env)
    case Bytes(rd) =>
      var len := q.answer.len + rd;
      var st1 := Set(st, i, q.(answer := Answer(q.answer.size, len)));
      if len < q.answer.size then Progress(st1)
      else if ResultFails(cfg, q.(code := CodeOk)) then Abort
      else
        var st2 := Done(cfg, st1, i);
        Progress(QueryDone(cfg, Set(st2, i, st2.queries[i].(code := CodeOk)), i, env))
  }

  /** Bytes of the next header on connection `s`. */
  function OnHead(cfg: Config, st: State, s: nat, received: RecvResult, header: Header, env: Env): Outcome
    requires Shape(cfg, st) && s < cfg.N()
  {
    var have := st.servers[s].headLen;
    if !(0 <= have < TCP_HEADER) then Abort
    else match received
      case RecvWouldBlock => Idle
      case RecvClosed => Broken(cfg, st, s, env)
      case RecvFail => Broken(cfg, st, s, env)
      case Bytes(rd) =>
        var st1 := SetHeadLen(st, s, have + rd);
        if have + rd < TCP_HEADER then Progress(st1) else OnFullHead(cfg, st1, s, header, env)
  }

  /** A header that makes the connection unusable: its length is too short, or no query has
      its id. The program looks for the query by id alone; repaired, it takes only one that
      waits for a header on this connection. */
  predicate Unusable(cfg: Config, st: State, s: nat, header: Header) {
    || header.msgLen < MSG_LOW
    || var i := FirstWithId(st.queries, header.id, 0);
       i == |st.queries| || (cfg.repaired && !(st.queries[i].status.TcpHead? && st.queries[i].turn.curr == s))
  }

  /** The header is complete: find its query and wait for the body. */
  function OnFullHead(cfg: Config, st: State, s: nat, header: Header, env: Env): Outcome
    requires Shape(cfg, st) && s < cfg.N()
  {
    if Unusable(cfg, st, s, header) then Broken(cfg, st, s, env)
    else
      var i := FirstWithId(st.queries, header.id, 0);
      if !st.queries[i].status.TcpHead? || HeadFails(cfg, st, i, header) then Abort
      else Progress(HeadAnswered(cfg, st, i, header, env))
  }

  /** A body is to be received, and the buffer of another one is left, or the count of the
      query's own connection, wherever the header came from, is not that of a whole header. */
  predicate HeadFails(cfg: Config, st: State, i: nat, header: Header)
    requires Shape(cfg, st) && i < |st.queries|
  {
    var q := st.queries[i];
    && CheckAnswerFlags(header.flags, q.options.needRa).CodeOk?
    && (q.answer.Answer? || st.servers[q.turn.curr].headLen != TCP_HEADER)
  }

  /** The header belongs to the answer for query `i`: an error, or wait for the body. */
  function HeadAnswered(cfg: Config, st: State, i: nat, header: Header, env: Env): State
    requires Shape(cfg, st) && i < |st.queries|
  {
    var st1 := Done(cfg, st, i);
    var code := CheckAnswerFlags(header.flags, st.queries[i].options.needRa);
    if !code.CodeOk? then
      QueryDone(cfg, Set(st1, i, st1.queries[i].(code := code)), i, env)
    else
      var q := st1.queries[i].(answer := Answer(header.msgLen, MSG_HEADER), rcode := header.rcode,
                               tc := header.flags & MASK_TC != 0);
      Want(cfg, Set(st1, i, q), i, TcpBody)
  }

  function SetHeadLen(st: State, s: nat, len: int): State
    requires s < |st.servers|
  {
    st.(servers := st.servers[s := st.servers[s].(headLen := len)])
  }

  /** The connection is unusable: its queries move on. */
  function Broken(cfg: Config, st: State, s: nat, env: Env): Outcome
    requires Shape(cfg, st) && s < cfg.N()
  {
    if Affected(st.queries, s, |st.queries|) == [] || ConnectNextFails(cfg, st, s, env) then Abort
    else Progress(ConnectNext(cfg, st, s, env))
  }

  function OnTcpReadable(cfg: Config, st: State, s: nat, received: RecvResult, header: Header, env: Env): Outcome
    requires Shape(cfg, st) && s < cfg.N()
  {
    var i := FirstBody(st.queries, s, 0);
    if i == |st.queries| then OnHead(cfg, st, s, received, header, env)
    else if st.queries[i].answer.NoAnswer? then Abort
    else OnBody(cfg, st, i, received, env)
  }

  function Step(cfg: Config, st: State, e: Event, env: Env): Outcome
    requires cfg.Ok() && Shape(cfg, st) && st.nextServer < cfg.N()
    requires Enabled(cfg, st, e)
  {
    match e
    case Submit(options, starts) => Progress(OnSubmit(cfg, st, options, starts))
    case Delete(i) =>
      // the dispatch cleans this status up with the routine of another one
      if !cfg.repaired && st.queries[i].status.TcpSend? then Abort else Progress(OnDelete(cfg, st, i))
    case UdpWritable(sent) => OnUdpWritable(cfg, st, sent)
    case UdpReadable(family, d) => OnUdpReadable(cfg, st, family, d, env)
    case UdpTimeout(i) => Progress(Resend(cfg, st, i, CodeTimeout))
    case HeadTimeout(i) => OnReadTimeout(cfg, st, i, env)
    case BodyTimeout(i) => OnReadTimeout(cfg, st, i, env)
    case ConnectResult(s, connected) => OnConnectResult(cfg, st, s, connected, env)
    case TcpWritable(s, sent) => OnTcpWritable(cfg, st, s, sent, env)
    case TcpReadable(s, received, header) => OnTcpReadable(cfg, st, s, received, header, env)
    case FinishNow(i) => Progress(QueryDone(cfg, Set(st, i, st.queries[i].(finish := false)), i, env))
  }

  /** What the event source delivers: handlers run only while registered, and a receive
      gives at least one byte and no more than was asked for, where it is made at all: with
      the count of an earlier header an assertion fails before. */
  ghost predicate Enabled(cfg: Config, st: State, e: Event) {
    match e
    case Submit(_, _) => true
    case Delete(i) => i < |st.queries|
    case UdpWritable(_) => exists k :: 0 <= k < |st.queries| && st.queries[k].status.UdpSend?
    case UdpReadable(_, _) => true
    case UdpTimeout(i) => i < |st.queries| && st.queries[i].timer.UdpReadTimer?
    case HeadTimeout(i) => i < |st.queries| && st.queries[i].timer.TcpHeadTimer?
    case BodyTimeout(i) => i < |st.queries| && st.queries[i].timer.TcpBodyTimer?
    case ConnectResult(s, _) => s < |st.servers| && st.servers[s].open && st.servers[s].connecters > 0
    case TcpWritable(s, _) => s < |st.servers| && st.servers[s].open && st.servers[s].writers > 0
    case TcpReadable(s, received, header) =>
      && s < |st.servers| && st.servers[s].open && st.servers[s].readers > 0
      && (received.Bytes? ==> 0 < received.rd && (Requested(st, s) > 0 ==> received.rd <= Requested(st, s)))
      && header.msgLen < 0x1_0000
    case FinishNow(i) => i < |st.queries| && st.queries[i].finish
  }

  /** Bytes the next read on connection `s` asks for. */
  function Requested(st: State, s: nat): int
    requires s < |st.servers|
  {
    var i := FirstBody(st.queries, s, 0);
    if i < |st.queries| && st.queries[i].answer.Answer? then st.queries[i].answer.size - st.queries[i].answer.len
    else TCP_HEADER - st.servers[s].headLen
  }
}
