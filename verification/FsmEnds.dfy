/** Every run that is not fed new queries comes to rest: the events that change anything are
    bounded, the reads of single bytes included. */
module FsmEnds {
  import opened Families
  import opened FsmInvariant
  import opened FsmModel
  import opened FsmReaders
  import opened FsmRuns
  import opened FsmSteps
  import opened Limits
  import opened Rotation
  import opened RuliList

  // ----------------------------------------------------------- one event

  /** No query but `i` begins to receive a body, or needs more of one. */
  ghost predicate BodiesBut(a: State, b: State, i: nat) {
    && |b.queries| == |a.queries|
    && forall j | 0 <= j < |a.queries| && j != i && b.queries[j].status.TcpBody? :: b.queries[j] == a.queries[j]
  }

  lemma HeadAnsweredBodies(cfg: Config, st: State, i: nat, header: Header, env: Env)
    requires Shape(cfg, st) && i < |st.queries|
    ensures BodiesBut(st, HeadAnswered(cfg, st, i, header, env), i)
  {
    hide Done, Want, QueryDone;
    DoneShape(cfg, st, i);
    var q := st.queries[i].(status := Void, timer := NoTimer);
    var code := CheckAnswerFlags(header.flags, q.options.needRa);
    if !code.CodeOk? {
      ResultQuiet(cfg, st, i, q.(code := code), env);
    } else {
      WantShape(cfg, Set(Done(cfg, st, i), i, q.(answer := Answer(header.msgLen, MSG_HEADER), rcode := header.rcode,
                                                  tc := header.flags & MASK_TC != 0)), i, TcpBody);
    }
  }

  lemma FullHeadBodies(cfg: Config, st: State, s: nat, header: Header, env: Env)
    requires Shape(cfg, st) && s < cfg.N()
    ensures var o := OnFullHead(cfg, st, s, header, env);
            o.Progress? ==> BodiesBut(st, o.state, FirstWithId(st.queries, header.id, 0))
  {
    hide HeadAnswered, ConnectNext, ConnectNextFails;
    ConnectNextQuiet(cfg, st, s, env);
    var i := FirstWithId(st.queries, header.id, 0);
    if i < |st.queries| {
      HeadAnsweredBodies(cfg, st, i, header, env);
    }
  }

  lemma TcpReadableBodies(cfg: Config, a: State, e: Event, env: Env)
    requires Inv(cfg, a) && Enabled(cfg, a, e) && e.TcpReadable? && !PartialRead(a, e)
    ensures var o := OnTcpReadable(cfg, a, e.server, e.received, e.header, env);
            o.Progress? ==> BodiesBut(a, o.state, FirstWithId(a.queries, e.header.id, 0))
  {
    hide Consistent, Done, QueryDone, ConnectNext, ConnectNextFails, OnFullHead, ResultFails, FirstWithId;
    var i := FirstBody(a.queries, e.server, 0);
    ConnectNextQuiet(cfg, a, e.server, env);
    if i < |a.queries| {
      QueryFacts(cfg, a, i);
      if e.received.Bytes? {
        BodyComplete(cfg, a, i, e.received.rd, env);
        var size := a.queries[i].answer.size;
        var q := a.queries[i].(status := Void, timer := NoTimer, code := CodeOk, answer := Answer(size, size));
        ResultQuiet(cfg, a, i, q, env);
      }
    } else if e.received.Bytes? {
      FullHeadBodies(cfg, SetHeadLen(a, e.server, a.servers[e.server].headLen + e.received.rd), e.server, e.header, env);
    }
  }

  lemma TcpWritableBodies(cfg: Config, a: State, s: nat, sent: SendResult, env: Env)
    requires Inv(cfg, a) && s < cfg.N()
    ensures var o := OnTcpWritable(cfg, a, s, sent, env); o.Progress? ==> BodiesBut(a, o.state, |a.queries|)
  {
    hide Consistent, Done, Want, ConnectNext, ConnectNextFails;
    ConnectNextQuiet(cfg, a, s, env);
    var i := FirstIn(a.queries, TcpSend, 0);
    if i < |a.queries| {
      DoneShape(cfg, a, i);
      WantShape(cfg, Done(cfg, a, i), i, TcpHead);
    }
  }

  lemma StepBodies(cfg: Config, a: State, x: Stimulus, b: State) returns (i: nat)
    requires Inv(cfg, a) && StepTo(cfg, a, x, b) && !x.event.Submit? && !x.event.Delete? && !PartialRead(a, x.event)
    ensures BodiesBut(a, b, i)
  {
    hide Consistent, Done, Want, OnTcpWritable, OnTcpReadable;
    i := |a.queries|;
    if Elsewhere(x.event) {
      ElsewhereQuiet(cfg, a, x, b);
    } else if x.event.TcpWritable? {
      TcpWritableBodies(cfg, a, x.event.server, x.event.sent, x.env);
    } else {
      TcpReadableBodies(cfg, a, x.event, x.env);
      i := FirstWithId(a.queries, x.event.header.id, 0);
    }
  }

  // --------------------------------------------------------------- bytes

  const BODY_HIGH := 65535

  lemma {:induction false} BodyBytesBut(a: seq<Query>, b: seq<Query>, i: nat)
    requires |a| == |b| && forall j | 0 <= j < |a| :: 0 <= BodyOf(a[j])
    requires forall j | 0 <= j < |a| && j != i :: BodyOf(b[j]) <= BodyOf(a[j])
    requires i < |b| ==> BodyOf(b[i]) <= BODY_HIGH
    ensures BodyBytes(b) <= BodyBytes(a) + if i < |b| then BODY_HIGH else 0
  {
    if a != [] {
      var m := |a| - 1;
      BodyBytesBut(a[..m], b[..m], i);
    }
  }

  lemma {:induction false} BodyBytesNonNegative(qs: seq<Query>)
    requires forall j | 0 <= j < |qs| :: 0 <= BodyOf(qs[j])
    ensures 0 <= BodyBytes(qs)
  {
    if qs != [] {
      BodyBytesNonNegative(qs[..|qs| - 1]);
    }
  }

  lemma BodyBounds(cfg: Config, st: State)
    requires Inv(cfg, st)
    ensures forall j | 0 <= j < |st.queries| :: 0 <= BodyOf(st.queries[j]) <= BODY_HIGH
    ensures 0 <= BodyBytes(st.queries)
  {
    hide Consistent;
    forall j | 0 <= j < |st.queries|
      ensures 0 <= BodyOf(st.queries[j]) <= BODY_HIGH
    {
      QueryFacts(cfg, st, j);
    }
    BodyBytesNonNegative(st.queries);
  }

  lemma BodyBytesDrop(qs: seq<Query>, i: nat)
    requires i < |qs|
    ensures BodyBytes(Dropped(qs, i)) == BodyBytes(qs) - BodyOf(qs[i])
  {
    var last := qs[|qs| - 1];
    BodyBytesUpdate(qs, i, last);
    BodyBytesLast(qs[i := last]);
  }

  lemma BodyBytesLast(qs: seq<Query>)
    requires qs != []
    ensures BodyBytes(qs) == BodyBytes(qs[..|qs| - 1]) + BodyOf(qs[|qs| - 1])
  {
  }

  /** The counts are between the one before any query and a whole header. */
  ghost predicate CountsSane(st: State) {
    forall s | 0 <= s < |st.servers| :: -1 <= st.servers[s].headLen <= TCP_HEADER
  }

  /** At most one count, that of server `t`, gets lower. */
  lemma {:induction false} HeadBytesBut(a: seq<Server>, b: seq<Server>, t: nat)
    requires |a| == |b| && forall s | 0 <= s < |a| && s != t :: a[s].headLen <= b[s].headLen
    requires t < |a| ==> a[t].headLen <= b[t].headLen + TCP_HEADER
    ensures HeadBytes(b) <= HeadBytes(a) + if t < |a| then TCP_HEADER else 0
  {
    if a != [] {
      var m := |a| - 1;
      HeadBytesBut(a[..m], b[..m], t);
    }
  }

  lemma {:induction false} HeadBytesBounds(servers: seq<Server>)
    requires forall s | 0 <= s < |servers| :: -1 <= servers[s].headLen <= TCP_HEADER
    ensures 0 <= HeadBytes(servers) <= |servers| * (TCP_HEADER + 1)
  {
    if servers != [] {
      HeadBytesBounds(servers[..|servers| - 1]);
    }
  }

  lemma StepHeads(cfg: Config, a: State, x: Stimulus, b: State)
    requires Inv(cfg, a) && StepTo(cfg, a, x, b) && CountsSane(a) && CountsSane(b)
    ensures HeadBytes(b.servers) <= HeadBytes(a.servers) + TCP_HEADER
    ensures x.event.Submit? || x.event.Delete? ==> HeadBytes(b.servers) <= HeadBytes(a.servers)
  {
    hide Inv, StepTo;
    var i := FirstIn(a.queries, TcpSend, 0);
    var t := if x.event.TcpWritable? && i < |a.queries| then a.queries[i].turn.curr else |a.servers|;
    SizesKept(cfg, a, x, b);
    forall s | 0 <= s < |a.servers| && s != t
      ensures a.servers[s].headLen <= b.servers[s].headLen
    {
      StepCount(cfg, a, x, b, s);
    }
    if t < |a.servers| {
      StepCount(cfg, a, x, b, t);
    }
    HeadBytesBut(a.servers, b.servers, t);
  }

  lemma SizesKept(cfg: Config, a: State, x: Stimulus, b: State)
    requires Inv(cfg, a) && StepTo(cfg, a, x, b)
    ensures |a.servers| == |b.servers| == cfg.N()
  {
    hide Consistent;
    StepInv(cfg, a, x, b);
  }

  function Missing(st: State): int {
    BodyBytes(st.queries) + HeadBytes(st.servers)
  }

  /** What one event can add to the bytes still missing. */
  const MISSING_HIGH := BODY_HIGH + TCP_HEADER

  lemma StepMissing(cfg: Config, a: State, x: Stimulus, b: State)
    requires Inv(cfg, a) && StepTo(cfg, a, x, b) && CountsSane(a) && CountsSane(b)
    ensures PartialRead(a, x.event) ==> Missing(b) < Missing(a)
    ensures !PartialRead(a, x.event) ==> Missing(b) <= Missing(a) + MISSING_HIGH
    ensures x.event.Submit? || x.event.Delete? ==> Missing(b) <= Missing(a)
  {
    hide Consistent, Inv, BodyOf, BodyBytes, HeadBytes, OnSubmit;
    BodyBounds(cfg, a);
    if PartialRead(a, x.event) {
      PartialStep(cfg, a, x.event, x.env);
    } else {
      StepHeads(cfg, a, x, b);
      if x.event.Submit? {
        SubmitMissing(cfg, a, x.event.options, x.event.starts);
      } else if x.event.Delete? {
        BodyBytesDrop(a.queries, x.event.index);
      } else {
        OtherMissing(cfg, a, x, b);
      }
    }
  }

  lemma OtherMissing(cfg: Config, a: State, x: Stimulus, b: State)
    requires Inv(cfg, a) && StepTo(cfg, a, x, b) && !x.event.Submit? && !x.event.Delete? && !PartialRead(a, x.event)
    ensures BodyBytes(b.queries) <= BodyBytes(a.queries) + BODY_HIGH
  {
    hide Inv, StepTo, PartialRead;
    StepInv(cfg, a, x, b);
    BodyBounds(cfg, a);
    BodyBounds(cfg, b);
    var i := StepBodies(cfg, a, x, b);
    BodyBytesBut(a.queries, b.queries, i);
  }

  lemma SubmitMissing(cfg: Config, a: State, options: Options, starts: bool)
    requires Inv(cfg, a)
    ensures BodyBytes(OnSubmit(cfg, a, options, starts).queries) == BodyBytes(a.queries)
  {
    hide Consistent, Want;
    SubmitInv(cfg, a, options, starts);
    if starts {
      SubmitShape(cfg, a, options);
    }
  }

  // ---------------------------------------------------------------- runs

  /** Reads among the first `k` events that leave a header or a body incomplete. */
  ghost function Partials(sts: seq<State>, xs: seq<Stimulus>, k: nat): nat
    requires k <= |xs| && |sts| == |xs| + 1
  {
    if k == 0 then 0
    else Partials(sts, xs, k - 1) + if PartialRead(sts[k - 1], xs[k - 1].event) then 1 else 0
  }

  ghost function Deletes(xs: seq<Stimulus>): nat {
    if xs == [] then 0 else Deletes(xs[..|xs| - 1]) + if xs[|xs| - 1].event.Delete? then 1 else 0
  }

  /** Events among the first `k` that change anything. */
  ghost function Changes(sts: seq<State>, k: nat): nat
    requires k < |sts|
  {
    if k == 0 then 0 else Changes(sts, k - 1) + if sts[k] != sts[k - 1] then 1 else 0
  }

  lemma RunCounts(cfg: Config, sts: seq<State>, xs: seq<Stimulus>, k: nat)
    requires Run(cfg, sts, xs) && k < |sts|
    ensures |sts[k].servers| == cfg.N() && CountsSane(sts[k])
  {
    hide CompletedSince;
    RunInv(cfg, sts, xs, k);
    forall s | 0 <= s < |sts[k].servers|
      ensures -1 <= sts[k].servers[s].headLen <= TCP_HEADER
    {
      FullExactly(cfg, sts, xs, s, k);
    }
  }

  lemma {:induction false} PartialsBound(cfg: Config, sts: seq<State>, xs: seq<Stimulus>, k: nat)
    requires Run(cfg, sts, xs) && k <= |xs|
    ensures 0 <= Missing(sts[k])
    ensures Partials(sts, xs, k) + Missing(sts[k])
         <= cfg.N() * (TCP_HEADER + 1) + MISSING_HIGH * Advancing(cfg, sts, xs, k)
  {
    hide Inv, StepTo, Missing, PartialRead;
    RunCounts(cfg, sts, xs, k);
    MissingNonNegative(cfg, sts, xs, k);
    if k == 0 {
      FirstMissing(cfg, sts[0]);
    } else {
      PartialsBound(cfg, sts, xs, k - 1);
      RunCounts(cfg, sts, xs, k - 1);
      RunInv(cfg, sts, xs, k - 1);
      assert StepAt(cfg, sts, xs, k - 1);
      StepMissing(cfg, sts[k - 1], xs[k - 1], sts[k]);
      NotPartial(sts[k - 1], xs[k - 1].event);
    }
  }

  lemma NotPartial(a: State, e: Event)
    ensures e.Submit? || e.Delete? ==> !PartialRead(a, e)
  {
  }

  lemma MissingNonNegative(cfg: Config, sts: seq<State>, xs: seq<Stimulus>, k: nat)
    requires Run(cfg, sts, xs) && k < |sts|
    ensures 0 <= Missing(sts[k])
  {
    hide Inv;
    RunInv(cfg, sts, xs, k);
    RunCounts(cfg, sts, xs, k);
    BodyBounds(cfg, sts[k]);
    HeadBytesBounds(sts[k].servers);
  }

  lemma FirstMissing(cfg: Config, st: State)
    requires Initial(cfg, st)
    ensures Missing(st) <= cfg.N() * (TCP_HEADER + 1)
  {
    HeadBytesBounds(st.servers);
  }

  lemma {:induction false} ListSize(cfg: Config, sts: seq<State>, xs: seq<Stimulus>, k: nat)
    requires Run(cfg, sts, xs) && k <= |xs|
    ensures |sts[k].queries| + Deletes(xs[..k]) == Submits(xs[..k])
  {
    hide Inv, StepTo;
    if k == 0 {
      assert xs[..0] == [];
    } else {
      ListSize(cfg, sts, xs, k - 1);
      RunInv(cfg, sts, xs, k - 1);
      assert StepAt(cfg, sts, xs, k - 1);
      StepSize(cfg, sts[k - 1], xs[k - 1], sts[k]);
      assert xs[..k][..k - 1] == xs[..k - 1];
    }
  }

  lemma StepSize(cfg: Config, a: State, x: Stimulus, b: State)
    requires Inv(cfg, a) && StepTo(cfg, a, x, b)
    ensures |b.queries| == |a.queries| + (if x.event.Submit? then 1 else 0) - (if x.event.Delete? then 1 else 0)
  {
    hide Consistent;
    if x.event.Submit? {
      SubmitInv(cfg, a, x.event.options, x.event.starts);
    } else if x.event.Delete? {
      DroppedAt(a.queries, x.event.index);
    } else if PartialRead(a, x.event) {
      PartialStep(cfg, a, x.event, x.env);
    } else if a != b {
      StepGood(cfg, a, x.event, x.env);
    }
  }

  lemma {:induction false} ChangesSplit(cfg: Config, sts: seq<State>, xs: seq<Stimulus>, k: nat)
    requires Run(cfg, sts, xs) && k <= |xs|
    ensures Changes(sts, k)
         <= Submits(xs[..k]) + Deletes(xs[..k]) + Advancing(cfg, sts, xs, k) + Partials(sts, xs, k)
  {
    if k == 0 {
      assert xs[..0] == [];
    } else {
      ChangesSplit(cfg, sts, xs, k - 1);
      assert xs[..k][..k - 1] == xs[..k - 1];
    }
  }

  /** Every run comes to rest: the events that change anything, reads of single bytes and
      deletions included, are bounded by the number of submits and a constant of the
      configuration. */
  lemma RunRests(cfg: Config, sts: seq<State>, xs: seq<Stimulus>, k: nat)
    requires Run(cfg, sts, xs) && k <= |xs|
    ensures var m := Submits(xs[..k]);
            Changes(sts, k) <= cfg.N() * (TCP_HEADER + 1) + 2 * m + (MISSING_HIGH + 1) * (m * ProgressPerQuery(cfg))
  {
    hide Run, ProgressPerQuery, Total, Missing, Changes, Partials, Advancing;
    ChangesSplit(cfg, sts, xs, k);
    ListSize(cfg, sts, xs, k);
    PartialsBound(cfg, sts, xs, k);
    RunBound(cfg, sts, xs, k);
  }
}
