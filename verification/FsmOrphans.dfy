/** The scheduled finish of a query that is deleted: the delete leaves it scheduled, and it runs
    on the caller's record later, whatever became of the record. */
module FsmOrphans {
  import opened FsmBodies
  import opened FsmInvariant
  import opened FsmModel
  import opened FsmRuns
  import opened FsmSteps
  import opened FsmUnfinished
  import opened RuliList

  /** `records`: the caller's record of each query; `codes`: the result codes of the deleted
      records; `left`: the records whose finish was scheduled when they were deleted and has
      not run yet; `late`: the records such finishes called back, with their codes. */
  datatype Program = Program(st: State, records: seq<nat>, codes: map<nat, Code>, left: seq<nat>, late: seq<(nat, Code)>)

  /** An event of the resolver, for a submit with the record to be used, or a finish that a
      delete left scheduled. */
  datatype Happening = Handled(x: Stimulus, record: nat) | Left(k: nat)

  /** Deleting frees the answer and forgets its code; a code without an answer stays. */
  function CodeAfterDelete(q: Query): Code {
    if q.answer.Answer? then CodeVoid else q.code
  }

  predicate Orphans(p: Program, e: Event) {
    e.Delete? && e.index < |p.st.queries| && p.st.queries[e.index].finish
  }

  /** An event of the resolver, seen with the records. A submitted record is not in use. */
  ghost predicate HandledTo(cfg: Config, p: Program, x: Stimulus, record: nat, r: Program) {
    && |p.records| == |p.st.queries| && StepTo(cfg, p.st, x, r.st) && r.late == p.late
    && match x.event
       case Submit(_, _) => record !in p.records && r == p.(st := r.st, records := p.records + [record])
       case Delete(i) =>
         && i < |p.records|
         && r.records == Dropped(p.records, i)
         && r.codes == p.codes[p.records[i] := CodeAfterDelete(p.st.queries[i])]
         && r.left == p.left + if p.st.queries[i].finish then [p.records[i]] else []
       case _ => r == p.(st := r.st)
  }

  function IndexOf(s: seq<nat>, x: nat): (i: nat)
    ensures i <= |s| && (i < |s| ==> s[i] == x) && (x in s ==> i < |s|)
  {
    if s == [] || s[0] == x then 0 else IndexOf(s[1..], x) + 1
  }

  function StatusOf(p: Program, record: nat): Status
    requires |p.records| == |p.st.queries|
  {
    var i := IndexOf(p.records, record);
    if i < |p.records| then p.st.queries[i].status else Void
  }

  function CodeOf(p: Program, record: nat): Code
    requires |p.records| == |p.st.queries|
  {
    var i := IndexOf(p.records, record);
    if i < |p.records| then p.st.queries[i].code
    else if record in p.codes then p.codes[record] else CodeVoid
  }

  /** What is asserted of a record whose finish runs. */
  ghost predicate FinishFails(p: Program, record: nat)
    requires |p.records| == |p.st.queries|
  {
    !StatusOf(p, record).Void? || CodeOf(p, record).CodeVoid?
  }

  /** It calls the user back; `ResultOnce` says why it can do nothing else. */
  ghost predicate LeftTo(p: Program, k: nat, r: Program) {
    && |p.records| == |p.st.queries| && k < |p.left| && !FinishFails(p, p.left[k])
    && r == p.(left := Removed(p.left, k), late := p.late + [(p.left[k], CodeOf(p, p.left[k]))])
  }

  ghost predicate Goes(cfg: Config, p: Program, h: Happening, r: Program) {
    match h
    case Handled(x, record) => HandledTo(cfg, p, x, record, r)
    case Left(k) => LeftTo(p, k, r)
  }

  ghost predicate History(cfg: Config, ps: seq<Program>, hs: seq<Happening>) {
    && |ps| == |hs| + 1
    && Initial(cfg, ps[0].st) && ps[0] == Program(ps[0].st, [], map[], [], [])
    && forall k | 0 <= k < |hs| :: GoesAt(cfg, ps, hs, k)
  }

  ghost predicate GoesAt(cfg: Config, ps: seq<Program>, hs: seq<Happening>, k: nat)
    requires k < |hs| && |ps| == |hs| + 1
  {
    Goes(cfg, ps[k], hs[k], ps[k + 1])
  }

  // ------------------------------------------------------------- invariant

  ghost predicate NoBufferAtFinish(st: State) {
    forall i | 0 <= i < |st.queries| :: Fate(st.queries[i])
  }

  ghost predicate RecordsOk(p: Program) {
    && |p.records| == |p.st.queries| && Distinct(p.records)
    && (forall x | x in p.left :: x in p.records || x in p.codes)
    && forall x | x in p.codes :: !p.codes[x].CodeOk?
  }

  ghost predicate Sound(cfg: Config, p: Program) {
    Inv(cfg, p.st) && RecordsOk(p) && (!cfg.repaired ==> NoBufferAtFinish(p.st))
  }

  lemma HandledSound(cfg: Config, p: Program, x: Stimulus, record: nat, r: Program)
    requires Sound(cfg, p) && HandledTo(cfg, p, x, record, r)
    ensures Sound(cfg, r)
  {
    hide Inv, StepTo, Fate, Distinct;
    StepInv(cfg, p.st, x, r.st);
    if !cfg.repaired {
      StepFate(cfg, p.st, x, r.st);
    }
    StepSize(cfg, p.st, x, r.st);
    if x.event.Submit? {
      DistinctPush(p.records, record);
    } else if x.event.Delete? {
      var i := x.event.index;
      DistinctDropped(p.records, i);
      DeletedCode(cfg, p.st, i);
    }
  }

  lemma DistinctPush(s: seq<nat>, x: nat)
    requires Distinct(s) && x !in s
    ensures Distinct(s + [x])
  {
  }

  lemma DistinctDropped(s: seq<nat>, i: nat)
    requires Distinct(s) && i < |s|
    ensures Distinct(Dropped(s, i)) && |Dropped(s, i)| == |s| - 1
    ensures forall x :: x in Dropped(s, i) <==> x in s && x != s[i]
  {
    DroppedAt(s, i);
    var t := Dropped(s, i);
    forall x | x in s && x != s[i]
      ensures x in t
    {
      var j :| 0 <= j < |s| && s[j] == x;
      assert t[if j == |s| - 1 then i else j] == x;
    }
  }

  lemma StepSize(cfg: Config, a: State, x: Stimulus, b: State)
    requires Inv(cfg, a) && StepTo(cfg, a, x, b)
    ensures |b.queries| == |a.queries| + if x.event.Submit? then 1 else if x.event.Delete? then -1 else 0
  {
    hide Consistent, Want;
    if x.event.Submit? {
      SubmitInv(cfg, a, x.event.options, x.event.starts);
    } else if x.event.Delete? {
      DroppedAt(a.queries, x.event.index);
    } else {
      StepTakes(cfg, a, x, b);
    }
  }

  /** The code left behind is void exactly for a query that was neither called back nor about
      to be, or that had an answer. */
  lemma DeletedCode(cfg: Config, st: State, i: nat)
    requires Inv(cfg, st) && i < |st.queries|
    ensures !CodeAfterDelete(st.queries[i]).CodeOk?
    ensures CodeAfterDelete(st.queries[i]).CodeVoid? <==> Live(st.queries[i]) || st.queries[i].answer.Answer?
  {
    LiveCode(cfg, st, i);
  }

  lemma LiveCode(cfg: Config, st: State, i: nat)
    requires Inv(cfg, st) && i < |st.queries|
    ensures var q := st.queries[i];
            && (q.code.CodeVoid? <==> Live(q)) && (!q.status.Void? ==> Live(q))
            && (q.code.CodeOk? ==> q.answer.Answer? && q.calls == 1)
  {
    hide Consistent;
    QueryFacts(cfg, st, i);
    assert Settled(st, i);
  }

  lemma {:induction false} HistorySound(cfg: Config, ps: seq<Program>, hs: seq<Happening>, k: nat)
    requires History(cfg, ps, hs) && k < |ps|
    ensures Sound(cfg, ps[k])
  {
    hide Inv, StepTo, HandledTo, Fate;
    if k == 0 {
      InitialSound(cfg, ps[0]);
    } else {
      HistorySound(cfg, ps, hs, k - 1);
      assert GoesAt(cfg, ps, hs, k - 1);
      match hs[k - 1]
      case Handled(x, record) => HandledSound(cfg, ps[k - 1], x, record, ps[k]);
      case Left(j) => LeftMembers(ps[k - 1].left, j);
    }
  }

  lemma InitialSound(cfg: Config, p: Program)
    requires Initial(cfg, p.st) && p == Program(p.st, [], map[], [], [])
    ensures Sound(cfg, p)
  {
    InitialInv(cfg, p.st);
  }

  lemma LeftMembers(s: seq<nat>, k: nat)
    requires k < |s|
    ensures forall x | x in Removed(s, k) :: x in s
  {
  }

  // --------------------------------------------------------------- results

  /** A query that was called back, or is about to be with an error, has a result that leads to
      one more callback and to nothing else. */
  lemma ResultOnce(cfg: Config, st: State, i: nat, env: Env)
    requires Inv(cfg, st) && i < |st.queries| && !Live(st.queries[i])
    ensures QueryDone(cfg, st, i, env) == Set(st, i, Call(st.queries[i])) && !ResultFails(cfg, st.queries[i])
  {
    hide Consistent;
    QueryFacts(cfg, st, i);
    LiveCode(cfg, st, i);
  }

  /** A finish that runs on a record submitted again fails an assertion exactly until its new
      query was called back or is about to be. */
  lemma ResubmittedExactly(cfg: Config, ps: seq<Program>, hs: seq<Happening>, k: nat, i: nat)
    requires History(cfg, ps, hs) && k < |ps| && i < |ps[k].records|
    ensures |ps[k].records| == |ps[k].st.queries|
    ensures FinishFails(ps[k], ps[k].records[i]) <==> Live(ps[k].st.queries[i])
  {
    hide Inv, Goes;
    HistorySound(cfg, ps, hs, k);
    LiveCode(cfg, ps[k].st, i);
    assert IndexOf(ps[k].records, ps[k].records[i]) == i;
  }

  /** The record is submitted between two happenings. */
  ghost predicate SubmittedIn(hs: seq<Happening>, m: nat, k: nat, record: nat)
    requires m <= k <= |hs|
  {
    exists l :: m <= l < k && hs[l].Handled? && hs[l].x.event.Submit? && hs[l].record == record
  }

  /** On a record deleted and not submitted since, it fails an assertion exactly when the query
      was deleted without a result, or with an answer, which the delete frees. Otherwise it
      calls the user back with the result of the deleted query. So it does for a query deleted
      while its finish is scheduled. */
  lemma DeletedExactly(cfg: Config, ps: seq<Program>, hs: seq<Happening>, m: nat, k: nat)
    requires History(cfg, ps, hs) && m < k <= |hs| && hs[m].Handled? && hs[m].x.event.Delete?
    requires !SubmittedIn(hs, m + 1, k, DeletedRecord(ps, hs, m))
    ensures hs[m].x.event.index < |ps[m].st.queries| && |ps[k].records| == |ps[k].st.queries|
    ensures var q, x := ps[m].st.queries[hs[m].x.event.index], DeletedRecord(ps, hs, m);
            && (FinishFails(ps[k], x) <==> Live(q) || q.answer.Answer?)
            && (!FinishFails(ps[k], x) ==> CodeOf(ps[k], x) == q.code)
            && (q.finish ==> !FinishFails(ps[k], x))
  {
    hide Inv, Goes, SubmittedIn;
    HistorySound(cfg, ps, hs, m);
    HistorySound(cfg, ps, hs, k);
    StaysDetached(cfg, ps, hs, m, k);
    var i := hs[m].x.event.index;
    DeletedCode(cfg, ps[m].st, i);
    if ps[m].st.queries[i].finish {
      FinishHasNoAnswer(cfg, ps[m], i);
    }
  }

  function DeletedRecord(ps: seq<Program>, hs: seq<Happening>, m: nat): nat
    requires m < |hs| && |ps| == |hs| + 1 && hs[m].Handled? && hs[m].x.event.Delete?
  {
    if hs[m].x.event.index < |ps[m].records| then ps[m].records[hs[m].x.event.index] else 0
  }

  lemma {:induction false} StaysDetached(cfg: Config, ps: seq<Program>, hs: seq<Happening>, m: nat, k: nat)
    requires History(cfg, ps, hs) && m < k <= |hs| && hs[m].Handled? && hs[m].x.event.Delete?
    requires !SubmittedIn(hs, m + 1, k, DeletedRecord(ps, hs, m))
    ensures hs[m].x.event.index < |ps[m].st.queries|
    ensures var q, x := ps[m].st.queries[hs[m].x.event.index], DeletedRecord(ps, hs, m);
            x !in ps[k].records && x in ps[k].codes && ps[k].codes[x] == CodeAfterDelete(q)
    decreases k
  {
    hide Inv, StepTo, Fate, Sound;
    var x := DeletedRecord(ps, hs, m);
    HistorySound(cfg, ps, hs, k - 1);
    SoundRecords(cfg, ps[k - 1]);
    assert GoesAt(cfg, ps, hs, k - 1);
    if k - 1 == m {
      DistinctDropped(ps[m].records, hs[m].x.event.index);
    } else {
      assert !SubmittedIn(hs, m + 1, k - 1, x);
      StaysDetached(cfg, ps, hs, m, k - 1);
      if hs[k - 1].Handled? {
        assert !(hs[k - 1].x.event.Submit? && hs[k - 1].record == x);
        if hs[k - 1].x.event.Delete? {
          DistinctDropped(ps[k - 1].records, hs[k - 1].x.event.index);
        }
      }
    }
  }

  lemma SoundRecords(cfg: Config, p: Program)
    requires Sound(cfg, p)
    ensures RecordsOk(p)
  {
  }

  lemma FinishHasNoAnswer(cfg: Config, p: Program, i: nat)
    requires Sound(cfg, p) && i < |p.st.queries| && p.st.queries[i].finish
    ensures p.st.queries[i].answer.NoAnswer? && !Live(p.st.queries[i])
  {
    hide Consistent;
    QueryFacts(cfg, p.st, i);
  }

  /** How many deletes of the first `k` happenings left a finish scheduled. */
  function Orphaned(ps: seq<Program>, hs: seq<Happening>, k: nat): nat
    requires k <= |hs| && |ps| == |hs| + 1
  {
    if k == 0 then 0
    else Orphaned(ps, hs, k - 1) + if hs[k - 1].Handled? && Orphans(ps[k - 1], hs[k - 1].x.event) then 1 else 0
  }

  /** Each of them is still scheduled or has called back: so many callbacks come on top of the
      one that every query makes at most. */
  lemma {:induction false} LateCount(cfg: Config, ps: seq<Program>, hs: seq<Happening>, k: nat)
    requires History(cfg, ps, hs) && k < |ps|
    ensures |ps[k].left| + |ps[k].late| == Orphaned(ps, hs, k)
    ensures forall i | 0 <= i < |ps[k].st.queries| :: ps[k].st.queries[i].calls <= 1
  {
    hide Inv, StepTo, Sound;
    HistorySound(cfg, ps, hs, k);
    forall i | 0 <= i < |ps[k].st.queries|
      ensures ps[k].st.queries[i].calls <= 1
    {
      SoundCalls(cfg, ps[k], i);
    }
    if k > 0 {
      LateCount(cfg, ps, hs, k - 1);
      assert GoesAt(cfg, ps, hs, k - 1);
    }
  }

  lemma SoundCalls(cfg: Config, p: Program, i: nat)
    requires Sound(cfg, p) && i < |p.st.queries|
    ensures p.st.queries[i].calls <= 1
  {
    hide Consistent;
    QueryFacts(cfg, p.st, i);
  }
}
