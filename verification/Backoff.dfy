/**
 The reconnect schedule (nextReconnectState, clampBackoff and the RunForever loop in
 digcore/server/conn.go), before jitter. Times are whole seconds.
 */
module Backoff {
  import opened Common

  const NORMAL_MIN: int := 1
  const NORMAL_MAX: int := 300
  const AUTH_MIN: int := 60
  const AUTH_MAX: int := 1800

  /** How a connection attempt ended: the server asked to retry later, the token was
      rejected, an established connection was lost, or anything else went wrong. */
  datatype Failure = Disconnected(retryAfter: int) | AuthFailed | ConnectionLost | Other

  /** Seconds to wait now, and the backoff kept for the next failure. */
  datatype Plan = Plan(wait: int, next: int)

  function Clamp(d: int, min: int, max: int): (r: int) {
    if d < min then min else if d > max then max else d
  }

  function NextPlan(f: Failure, backoff: int): (p: Plan) {
    match f
    case Disconnected(retryAfter) =>
      Plan(if retryAfter < NORMAL_MIN then NORMAL_MIN else retryAfter, NORMAL_MIN)
    case AuthFailed =>
      var b := if backoff < AUTH_MIN then AUTH_MIN else backoff;
      Plan(b, Clamp(b * 2, AUTH_MIN, AUTH_MAX))
    case ConnectionLost => Plan(NORMAL_MIN, Clamp(NORMAL_MIN * 2, NORMAL_MIN, NORMAL_MAX))
    case Other => Plan(backoff, Clamp(backoff * 2, NORMAL_MIN, NORMAL_MAX))
  }

  function Max(a: int, b: int): (m: int) {
    if a >= b then a else b
  }

  /** The stored backoff after a run of failures. */
  function Stored(start: int, fs: seq<Failure>): (b: int) {
    if fs == [] then start else NextPlan(fs[|fs| - 1], Stored(start, fs[..|fs| - 1])).next
  }

  /** The wait after the n-th failure of a run. */
  function WaitAt(start: int, fs: seq<Failure>, n: nat): (w: int)
    requires n < |fs|
  {
    NextPlan(fs[n], Stored(start, fs[..n])).wait
  }

  /** The stored backoff never leaves [1s, 1800s]; above 300s it is the mark of an
      authentication failure just before. */
  lemma {:induction false} StoredInRange(fs: seq<Failure>)
    ensures NORMAL_MIN <= Stored(NORMAL_MIN, fs) <= AUTH_MAX
    ensures Stored(NORMAL_MIN, fs) > NORMAL_MAX ==> fs != [] && fs[|fs| - 1].AuthFailed?
  {
    if fs != [] {
      StoredInRange(fs[..|fs| - 1]);
    }
  }

  /** Waits: at least a second; at most 1800s unless the server asked for more; and an
      ordinary failure waits more than 300s only right after an authentication failure. */
  lemma WaitsInRange(fs: seq<Failure>, n: nat)
    requires n < |fs|
    ensures WaitAt(NORMAL_MIN, fs, n) >= NORMAL_MIN
    ensures !fs[n].Disconnected? ==> WaitAt(NORMAL_MIN, fs, n) <= AUTH_MAX
    ensures fs[n].AuthFailed? ==> WaitAt(NORMAL_MIN, fs, n) >= AUTH_MIN
    ensures (fs[n].Other? || fs[n].ConnectionLost?) && WaitAt(NORMAL_MIN, fs, n) > NORMAL_MAX ==>
      fs[n].Other? && n > 0 && fs[n - 1].AuthFailed?
  {
    StoredInRange(fs[..n]);
  }

  function Pow2(k: nat): (n: nat)
    ensures n >= 1
  {
    if k == 0 then 1 else 2 * Pow2(k - 1)
  }

  function Repeat(f: Failure, k: nat): (fs: seq<Failure>)
    ensures |fs| == k
  {
    if k == 0 then [] else Repeat(f, k - 1) + [f]
  }

  lemma RepeatPrefix(f: Failure, k: nat)
    ensures Repeat(f, k + 1)[..k] == Repeat(f, k) && Repeat(f, k + 1)[k] == f
  {
  }

  lemma StoredConcat(start: int, a: seq<Failure>, f: Failure)
    ensures Stored(start, a + [f]) == NextPlan(f, Stored(start, a)).next
  {
    assert (a + [f])[..|a|] == a;
  }

  lemma {:induction false} OrdinaryStored(start: int, k: nat)
    requires start >= NORMAL_MIN && k > 0
    ensures Stored(start, Repeat(Other, k)) == Min(start * Pow2(k), NORMAL_MAX)
  {
    StoredConcat(start, Repeat(Other, k - 1), Other);
    if k == 1 {
      assert Pow2(1) == 2 * Pow2(0);
    } else {
      OrdinaryStored(start, k - 1);
      Doubling(start, k);
    }
  }

  lemma {:induction false} AuthStored(start: int, k: nat)
    requires NORMAL_MIN <= start <= AUTH_MAX && k > 0
    ensures Stored(start, Repeat(AuthFailed, k)) == Min(Max(start, AUTH_MIN) * Pow2(k), AUTH_MAX)
  {
    StoredConcat(start, Repeat(AuthFailed, k - 1), AuthFailed);
    if k == 1 {
      assert Pow2(1) == 2 * Pow2(0);
    } else {
      AuthStored(start, k - 1);
      Doubling(Max(start, AUTH_MIN), k);
    }
  }

  lemma Doubling(b: int, k: nat)
    requires b >= 1 && k > 0
    ensures b * Pow2(k) == 2 * (b * Pow2(k - 1)) && b * Pow2(k - 1) >= b
  {
    assert b * Pow2(k) == b * (2 * Pow2(k - 1));
    Grows(b, Pow2(k - 1));
  }

  lemma Grows(b: int, n: nat)
    requires b >= 1 && n >= 1
    ensures b * n >= b
  {
    assert b * n == b + b * (n - 1);
  }

  /** A run goes on from what it stored. */
  lemma {:induction false} StoredOfRun(start: int, a: seq<Failure>, f: Failure, k: nat)
    ensures Stored(start, a + Repeat(f, k)) == Stored(Stored(start, a), Repeat(f, k))
  {
    if k == 0 {
      assert a + Repeat(f, 0) == a;
    } else {
      StoredOfRun(start, a, f, k - 1);
      StoredOneMore(start, a, Repeat(f, k - 1), f);
    }
  }

  lemma StoredOneMore(start: int, a: seq<Failure>, b: seq<Failure>, f: Failure)
    requires Stored(start, a + b) == Stored(Stored(start, a), b)
    ensures Stored(start, a + (b + [f])) == Stored(Stored(start, a), b + [f])
  {
    Regroup(a, b, f);
    StoredConcat(start, a + b, f);
    StoredConcat(Stored(start, a), b, f);
  }

  lemma Regroup(a: seq<Failure>, b: seq<Failure>, f: Failure)
    ensures a + (b + [f]) == (a + b) + [f]
  {
  }

  /** The wait after the k-th of several equal failures behind any run. */
  lemma WaitInRun(a: seq<Failure>, f: Failure, k: nat, rest: seq<Failure>)
    ensures var fs := a + Repeat(f, k + 1) + rest;
      WaitAt(NORMAL_MIN, fs, |a| + k) == NextPlan(f, Stored(Stored(NORMAL_MIN, a), Repeat(f, k))).wait
  {
    var fs := a + Repeat(f, k + 1) + rest;
    RepeatPrefix(f, k);
    assert fs[..|a| + k] == a + Repeat(f, k) && fs[|a| + k] == Repeat(f, k + 1)[k];
    StoredOfRun(NORMAL_MIN, a, f, k);
  }

  /** k consecutive ordinary failures anywhere in a run: the first waits what is stored, the
      k-th min(stored * 2^k, 300) seconds. */
  lemma OrdinarySchedule(a: seq<Failure>, k: nat, rest: seq<Failure>)
    ensures var b := Stored(NORMAL_MIN, a);
      WaitAt(NORMAL_MIN, a + Repeat(Other, k + 1) + rest, |a| + k)
        == if k == 0 then b else Min(b * Pow2(k), NORMAL_MAX)
  {
    StoredInRange(a);
    WaitInRun(a, Other, k, rest);
    if k > 0 {
      OrdinaryStored(Stored(NORMAL_MIN, a), k);
    }
  }

  /** From the start, or after a disconnect the server announced, that is the documented
      min(2^k, 300). */
  lemma OrdinaryScheduleFromStart(a: seq<Failure>, k: nat, rest: seq<Failure>)
    requires a == [] || a[|a| - 1].Disconnected?
    ensures WaitAt(NORMAL_MIN, a + Repeat(Other, k + 1) + rest, |a| + k) == Min(Pow2(k), NORMAL_MAX)
  {
    OrdinarySchedule(a, k, rest);
    assert Stored(NORMAL_MIN, a) == NORMAL_MIN;
  }

  /** k consecutive authentication failures anywhere in a run: the k-th waits
      min(max(stored, 60) * 2^k, 1800) seconds. */
  lemma AuthSchedule(a: seq<Failure>, k: nat, rest: seq<Failure>)
    ensures var b := Max(Stored(NORMAL_MIN, a), AUTH_MIN);
      WaitAt(NORMAL_MIN, a + Repeat(AuthFailed, k + 1) + rest, |a| + k) == Min(b * Pow2(k), AUTH_MAX)
  {
    StoredInRange(a);
    WaitInRun(a, AuthFailed, k, rest);
    AuthWait(Stored(NORMAL_MIN, a), k);
  }

  lemma AuthWait(start: int, k: nat)
    requires NORMAL_MIN <= start <= AUTH_MAX
    ensures NextPlan(AuthFailed, Stored(start, Repeat(AuthFailed, k))).wait
         == Min(Max(start, AUTH_MIN) * Pow2(k), AUTH_MAX)
  {
    if k > 0 {
      AuthStored(start, k);
      Grows(Max(start, AUTH_MIN), Pow2(k));
    }
  }

  /** Anywhere in a run: a server that announces a disconnect is obeyed, from one second on,
      and a lost connection is retried after one second; the next ordinary failure then waits
      one or two seconds. */
  lemma ResetSchedule(fs: seq<Failure>, n: nat)
    requires n < |fs|
    ensures fs[n].Disconnected? ==>
      && WaitAt(NORMAL_MIN, fs, n) == Max(fs[n].retryAfter, 1) && Stored(NORMAL_MIN, fs[..n + 1]) == 1
    ensures fs[n].ConnectionLost? ==>
      && WaitAt(NORMAL_MIN, fs, n) == 1 && Stored(NORMAL_MIN, fs[..n + 1]) == 2
  {
    assert fs[..n + 1][..n] == fs[..n];
  }

  /** The documented maximum of 300s for ordinary failures is exceeded exactly when the
      failure before was an authentication failure that waited more than 150s. */
  lemma OrdinaryWaitExceedsIff(fs: seq<Failure>, n: nat)
    requires n < |fs| && fs[n].Other?
    ensures WaitAt(NORMAL_MIN, fs, n) > NORMAL_MAX <==>
      n > 0 && fs[n - 1].AuthFailed? && WaitAt(NORMAL_MIN, fs, n - 1) > NORMAL_MAX / 2
  {
    StoredInRange(fs[..n]);
    if n > 0 {
      assert fs[..n][..n - 1] == fs[..n - 1];
    }
  }

  /** Three rejected tokens and then an ordinary failure: a wait of 480 seconds. */
  lemma LongOrdinaryWait()
    ensures WaitAt(NORMAL_MIN, [AuthFailed, AuthFailed, AuthFailed, Other], 3) == 480
  {
    var fs := [AuthFailed, AuthFailed, AuthFailed, Other];
    assert fs[..3][..2] == fs[..2] && fs[..2][..1] == fs[..1] && fs[..1][..0] == [];
    assert Stored(NORMAL_MIN, fs[..1]) == 120;
    assert Stored(NORMAL_MIN, fs[..2]) == 240;
    assert Stored(NORMAL_MIN, fs[..3]) == 480;
  }

  /** The reconnect loop: the waits it makes are those of the schedule. */
  method RunForever(fs: seq<Failure>) returns (waits: seq<int>)
    ensures |waits| == |fs|
    ensures forall n :: 0 <= n < |fs| ==> waits[n] == WaitAt(NORMAL_MIN, fs, n) && waits[n] >= NORMAL_MIN
  {
    waits := [];
    var backoff := NORMAL_MIN;
    for i := 0 to |fs|
      invariant |waits| == i && backoff == Stored(NORMAL_MIN, fs[..i])
      invariant forall n :: 0 <= n < i ==> waits[n] == WaitAt(NORMAL_MIN, fs, n)
    {
      var plan := NextPlan(fs[i], backoff);
      waits := waits + [plan.wait];
      assert fs[..i + 1][..i] == fs[..i];
      backoff := plan.next;
    }
    forall n | 0 <= n < |fs|
      ensures waits[n] >= NORMAL_MIN
    {
      WaitsInRange(fs, n);
    }
  }
}
