/** Server rotation: how one query walks over the configured name servers.
    A `Turn` holds the three fields the rotation updates. */
module Rotation {

  datatype Turn = Turn(curr: nat, first: nat, retries: int)

  ghost predicate TurnOk(n: nat, t: Turn) {
    t.curr < n && t.first < n
  }

  function Max0(x: int): nat {
    if x < 0 then 0 else x
  }

  /** The next server index, modulo the number of servers. */
  function Following(n: nat, i: nat): (next: nat)
    requires i < n
    ensures next == if i + 1 == n then 0 else i + 1
  {
    (i + 1) % n
  }

  /** Moves to the next server; the flag tells whether the move is allowed.
      A refused move still leaves `curr` advanced. */
  function Switch(n: nat, t: Turn): (r: (Turn, bool))
    requires TurnOk(n, t)
  {
    var c := Following(n, t.curr);
    if c != t.first then (t.(curr := c), true)
    else if t.retries < 1 then (t.(curr := c), false)
    else (t.(curr := c, retries := t.retries - 1), true)
  }

  /** Multiplication as repeated addition. */
  function Times(a: nat, b: nat): nat {
    if a == 0 then 0 else b + Times(a - 1, b)
  }

  lemma {:induction false} TimesIsMul(a: nat, b: nat)
    ensures Times(a, b) == a * b
  {
    if a > 0 {
      TimesIsMul(a - 1, b);
    }
  }

  lemma {:induction false} TimesMonotone(a: nat, b: nat, c: nat)
    requires a <= b
    ensures Times(a, c) <= Times(b, c)
  {
    if a < b {
      TimesMonotone(a, b - 1, c);
    }
  }

  /** Moves needed to come back to the first server: between 1 and n. */
  function StepsToFirst(n: nat, t: Turn): nat
    requires TurnOk(n, t)
  {
    if t.first > t.curr then t.first - t.curr else t.first + n - t.curr
  }

  function SwitchesLeft(n: nat, t: Turn): nat
    requires TurnOk(n, t)
  {
    Times(Max0(t.retries), n) + StepsToFirst(n, t) - 1
  }

  /** A switch succeeds exactly while switches are left, and costs exactly one. */
  lemma SwitchExact(n: nat, t: Turn)
    requires TurnOk(n, t)
    ensures TurnOk(n, Switch(n, t).0)
    ensures Switch(n, t).1 <==> SwitchesLeft(n, t) > 0
    ensures Switch(n, t).1 ==> SwitchesLeft(n, Switch(n, t).0) == SwitchesLeft(n, t) - 1
  {
    assert t.retries >= 1 ==> Times(t.retries, n) == n + Times(t.retries - 1, n);
  }

  /** The servers tried for one name, in order, until a switch is refused. */
  function Visits(n: nat, t: Turn): seq<nat>
    requires TurnOk(n, t)
    decreases SwitchesLeft(n, t)
  {
    SwitchExact(n, t);
    var (next, ok) := Switch(n, t);
    [t.curr] + if ok then Visits(n, next) else []
  }

  function Occurrences(s: seq<nat>, x: nat): nat {
    if s == [] then 0 else (if s[0] == x then 1 else 0) + Occurrences(s[1..], x)
  }

  /** Whether server `x` is still to be tried in the current lap. */
  ghost predicate Ahead(n: nat, t: Turn, x: nat)
    requires TurnOk(n, t) && x < n
  {
    (if x >= t.curr then x - t.curr else x + n - t.curr) < StepsToFirst(n, t)
  }

  lemma {:induction false} VisitsOf(n: nat, t: Turn, x: nat)
    requires TurnOk(n, t) && x < n
    ensures |Visits(n, t)| == SwitchesLeft(n, t) + 1
    ensures Occurrences(Visits(n, t), x) == Max0(t.retries) + if Ahead(n, t, x) then 1 else 0
    decreases SwitchesLeft(n, t)
  {
    SwitchExact(n, t);
    var (next, ok) := Switch(n, t);
    if ok {
      VisitsOf(n, next, x);
      assert Visits(n, t)[1..] == Visits(n, next);
    }
  }

  /** Wherever a query starts, every server is tried exactly res_retry + 1 times per name. */
  lemma EveryServerEqually(n: nat, start: nat, retry: int, x: nat)
    requires start < n && x < n
    ensures Occurrences(Visits(n, Turn(start, start, retry)), x) == Max0(retry) + 1
    ensures |Visits(n, Turn(start, start, retry))| == n * (Max0(retry) + 1)
  {
    VisitsOf(n, Turn(start, start, retry), x);
    TimesIsMul(Max0(retry), n);
  }
}
