/**
 The container restart counter (checkRestartDetected in plugins/docker/docker.go):
 increments of RestartCount are recorded with a timestamp, expire after a window, and
 are forgotten when the container is recreated.
 */
module RestartWindow {
  datatype Record = Record(count: int, timestamp: int)

  /** One inspection of the container: when, and the RestartCount it showed. */
  datatype Observation = Observation(now: int, count: int)

  function Sum(rs: seq<Record>): (n: int) {
    if rs == [] then 0 else Sum(rs[..|rs| - 1]) + rs[|rs| - 1].count
  }

  /** The records after the cutoff, in order. */
  function After(rs: seq<Record>, cutoff: int): (r: seq<Record>)
    ensures |r| <= |rs|
  {
    if rs == [] then []
    else
      var last := rs[|rs| - 1];
      var before := After(rs[..|rs| - 1], cutoff);
      if last.timestamp > cutoff then before + [last] else before
  }

  /** What an observation adds: a decrease forgets everything, an increase is recorded. */
  function Grow(rs: seq<Record>, lastCount: int, o: Observation): (r: seq<Record>) {
    if o.count < lastCount then []
    else if o.count > lastCount then rs + [Record(o.count - lastCount, o.now)]
    else rs
  }

  /** The positive increments since the first observation or the last decrease: defined on
      the observations alone. */
  function Increments(obs: seq<Observation>): (rs: seq<Record>) {
    if |obs| <= 1 then []
    else Grow(Increments(obs[..|obs| - 1]), obs[|obs| - 2].count, obs[|obs| - 1])
  }

  /** The clock never goes back. */
  predicate Clocked(obs: seq<Observation>) {
    |obs| <= 1 || (Clocked(obs[..|obs| - 1]) && obs[|obs| - 2].now <= obs[|obs| - 1].now)
  }

  // ---------------------------------------------------------------- the tracker on values

  datatype State = State(initialized: bool, lastCount: int, records: seq<Record>)

  function Observe(st: State, o: Observation, window: int): (r: State) {
    State(true, o.count, After(Updated(st, o).records, o.now - window))
  }

  /** The first observation only sets the count to compare with. */
  function Updated(st: State, o: Observation): (r: State) {
    State(true, o.count, if st.initialized then Grow(st.records, st.lastCount, o) else st.records)
  }

  function Track(obs: seq<Observation>, window: int): (st: State) {
    if obs == [] then State(false, 0, [])
    else Observe(Track(obs[..|obs| - 1], window), obs[|obs| - 1], window)
  }

  lemma {:induction false} AfterSnoc(rs: seq<Record>, r: Record, cutoff: int)
    ensures After(rs + [r], cutoff) == if r.timestamp > cutoff then After(rs, cutoff) + [r] else After(rs, cutoff)
  {
    assert (rs + [r])[..|rs|] == rs;
  }

  /** Expiring twice is expiring at the later cutoff. */
  lemma {:induction false} AfterTwice(rs: seq<Record>, early: int, late: int)
    requires early <= late
    ensures After(After(rs, early), late) == After(rs, late)
  {
    if rs != [] {
      var n := |rs| - 1;
      AfterTwice(rs[..n], early, late);
      if rs[n].timestamp > early {
        AfterSnoc(After(rs[..n], early), rs[n], late);
      } else {
        assert After(rs, early) == After(rs[..n], early);
        assert After(rs, late) == After(rs[..n], late);
      }
    }
  }

  /** Expiring before or after recording makes no difference. */
  lemma {:induction false} GrowAfter(past: seq<Record>, kept: seq<Record>, early: int, late: int,
                                     lastCount: int, o: Observation)
    requires early <= late && kept == After(past, early)
    ensures After(Grow(kept, lastCount, o), late) == After(Grow(past, lastCount, o), late)
  {
    AfterTwice(past, early, late);
    if o.count > lastCount {
      var r := Record(o.count - lastCount, o.now);
      AfterSnoc(past, r, late);
      AfterSnoc(kept, r, late);
    }
  }

  /** Restart window: under a non-decreasing clock the tracker keeps exactly the increments
      observed since the last reset that are still inside the window, in order. */
  lemma {:induction false} TracksIncrements(obs: seq<Observation>, window: int)
    requires obs != [] && Clocked(obs)
    ensures Tracking(Track(obs, window), Increments(obs), obs[|obs| - 1], window)
  {
    var n := |obs| - 1;
    if n == 0 {
      TracksFirst(obs, window);
    } else {
      TracksIncrements(obs[..n], window);
      ObserveNext(Track(obs[..n], window), Increments(obs[..n]), obs[n - 1], obs[n], window);
    }
  }

  /** After observing `o`, the tracker holds the increments that are inside the window. */
  predicate Tracking(st: State, past: seq<Record>, o: Observation, window: int) {
    st.initialized && st.lastCount == o.count && st.records == After(past, o.now - window)
  }

  lemma TracksFirst(obs: seq<Observation>, window: int)
    requires |obs| == 1
    ensures Tracking(Track(obs, window), Increments(obs), obs[0], window)
  {
    assert obs[..0] == [];
    assert Track([], window) == State(false, 0, []);
  }

  lemma {:induction false} ObserveNext(st: State, past: seq<Record>, before: Observation, o: Observation, window: int)
    requires Tracking(st, past, before, window) && before.now <= o.now
    ensures Tracking(Observe(st, o, window), Grow(past, before.count, o), o, window)
  {
    GrowAfter(past, st.records, before.now - window, o.now - window, st.lastCount, o);
  }

  // ---------------------------------------------------------------- by index

  /** The last observation whose count was below the one before; 0 if there is none. */
  function LastReset(obs: seq<Observation>): (r: nat)
    ensures r < |obs| || r == 0
  {
    if |obs| <= 1 then 0
    else if obs[|obs| - 1].count < obs[|obs| - 2].count then |obs| - 1
    else LastReset(obs[..|obs| - 1])
  }

  /** The observations from `lo` to `hi` - 1 that count more than their neighbour before: how
      much more, and when. */
  function Gains(obs: seq<Observation>, lo: nat, hi: nat): (rs: seq<Record>)
    requires 1 <= lo && hi <= |obs|
    decreases hi
  {
    if hi <= lo then []
    else
      var d := obs[hi - 1].count - obs[hi - 2].count;
      var before := Gains(obs, lo, hi - 1);
      if d > 0 then before + [Record(d, obs[hi - 1].now)] else before
  }

  lemma {:induction false} GainsOfPrefix(obs: seq<Observation>, n: nat, lo: nat, hi: nat)
    requires 1 <= lo && hi <= n <= |obs|
    ensures Gains(obs[..n], lo, hi) == Gains(obs, lo, hi)
    decreases hi
  {
    if hi > lo {
      GainsOfPrefix(obs, n, lo, hi - 1);
    }
  }

  /** What is kept are the positive differences of neighbours since the last decrease. */
  lemma {:induction false} IncrementsAreGains(obs: seq<Observation>)
    requires obs != []
    ensures Increments(obs) == Gains(obs, LastReset(obs) + 1, |obs|)
  {
    var n := |obs| - 1;
    if n > 0 {
      IncrementsAreGains(obs[..n]);
      assert obs[..n][n - 1] == obs[n - 1];
      GainsOfPrefix(obs, n, LastReset(obs[..n]) + 1, n);
    }
  }

  /** The sum of those differences that were observed after the cutoff. */
  function GainSum(obs: seq<Observation>, lo: nat, hi: nat, cutoff: int): (n: int)
    requires 1 <= lo && hi <= |obs|
    decreases hi
  {
    if hi <= lo then 0
    else
      var d := obs[hi - 1].count - obs[hi - 2].count;
      GainSum(obs, lo, hi - 1, cutoff) + if d > 0 && obs[hi - 1].now > cutoff then d else 0
  }

  lemma {:induction false} SumAfterGains(obs: seq<Observation>, lo: nat, hi: nat, cutoff: int)
    requires 1 <= lo && hi <= |obs|
    ensures Totals(Gains(obs, lo, hi), cutoff, GainSum(obs, lo, hi, cutoff))
    decreases hi
  {
    if hi > lo {
      SumAfterGains(obs, lo, hi - 1, cutoff);
      var before, n := Gains(obs, lo, hi - 1), GainSum(obs, lo, hi - 1, cutoff);
      var d, now := obs[hi - 1].count - obs[hi - 2].count, obs[hi - 1].now;
      if d > 0 {
        assert Gains(obs, lo, hi) == before + [Record(d, now)];
        TotalsSnoc(before, Record(d, now), cutoff, n);
      } else {
        assert Gains(obs, lo, hi) == before;
      }
    }
  }

  /** The records after the cutoff add up to `n`. */
  predicate Totals(rs: seq<Record>, cutoff: int, n: int) {
    Sum(After(rs, cutoff)) == n
  }

  lemma TotalsSnoc(rs: seq<Record>, r: Record, cutoff: int, n: int)
    requires Totals(rs, cutoff, n)
    ensures Totals(rs + [r], cutoff, n + if r.timestamp > cutoff then r.count else 0)
  {
    AfterSnoc(rs, r, cutoff);
    SumSnoc(After(rs, cutoff), r);
  }

  lemma SumSnoc(rs: seq<Record>, r: Record)
    ensures Sum(rs + [r]) == Sum(rs) + r.count
  {
    assert (rs + [r])[..|rs|] == rs;
  }

  /** The number the check works with: the positive differences of neighbouring counts, since
      the last decrease, observed inside the window. */
  lemma RestartsInWindow(obs: seq<Observation>, window: int)
    requires obs != [] && Clocked(obs)
    ensures Sum(Track(obs, window).records)
         == GainSum(obs, LastReset(obs) + 1, |obs|, obs[|obs| - 1].now - window)
  {
    TracksIncrements(obs, window);
    IncrementsAreGains(obs);
    SumAfterGains(obs, LastReset(obs) + 1, |obs|, obs[|obs| - 1].now - window);
  }

  // ---------------------------------------------------------------- the object

  /** Compacts the first `n` records in place and returns how many are left. */
  method CompactInPlace(a: array<Record>, n: nat, cutoff: int) returns (validIdx: nat)
    requires n <= a.Length
    modifies a
    ensures validIdx <= n && a[..validIdx] == After(old(a[..n]), cutoff)
  {
    validIdx := 0;
    for i := 0 to n
      invariant validIdx <= i
      invariant a[i..n] == old(a[i..n])
      invariant a[..validIdx] == After(old(a[..i]), cutoff)
    {
      var r := a[i];
      assert r == a[i..n][0] && r == old(a[..n])[i];
      AfterSnoc(old(a[..i]), r, cutoff);
      assert old(a[..i + 1]) == old(a[..i]) + [r];
      ghost var kept, rest := a[..validIdx], a[i + 1..n];
      assert rest == old(a[i + 1..n]) by {
        assert a[i + 1..n] == a[i..n][1..] && old(a[i + 1..n]) == old(a[i..n])[1..];
      }
      if r.timestamp > cutoff {
        a[validIdx] := r;
        validIdx := validIdx + 1;
        assert a[..validIdx] == kept + [r];
        assert a[i + 1..n] == rest;
      }
    }
  }

  method Total(a: array<Record>, n: nat) returns (sum: int)
    requires n <= a.Length
    ensures sum == Sum(a[..n])
  {
    sum := 0;
    for i := 0 to n
      invariant sum == Sum(a[..i])
    {
      assert a[..i + 1][..i] == a[..i];
      sum := sum + a[i].count;
    }
  }

  class ContainerRestartState {
    var initialized: bool
    var lastRestartCount: int
    var records: array<Record>
    var len: nat

    constructor ()
      ensures Valid() && View() == State(false, 0, []) && fresh(records)
    {
      initialized, lastRestartCount, len := false, 0, 0;
      records := new Record[0];
    }

    ghost predicate Valid()
      reads this
    {
      len <= records.Length
    }

    ghost function View(): (st: State)
      requires Valid()
      reads this, records
    {
      State(initialized, lastRestartCount, records[..len])
    }

    method Append(r: Record)
      requires Valid()
      modifies this`records, this`len, records
      ensures Valid() && records[..len] == old(records[..len]) + [r]
      ensures records == old(records) || fresh(records)
    {
      if len == records.Length {
        var grown := new Record[2 * len + 1](_ => r);
        for i := 0 to len
          invariant records == old(records) && len == old(len) && records[..len] == old(records[..len])
          invariant grown[..i] == records[..i]
        {
          grown[i] := records[i];
        }
        records := grown;
      }
      ghost var before := records[..len];
      records[len] := r;
      len := len + 1;
      assert records[..len] == before + [r];
    }

    /** One inspection: returns the restarts inside the window. */
    method CheckRestart(now: int, currentCount: int, window: int) returns (restartsInWindow: int)
      requires Valid()
      modifies this, records
      ensures Valid() && View() == Observe(old(View()), Observation(now, currentCount), window)
      ensures restartsInWindow == Sum(View().records)
      ensures records == old(records) || fresh(records)
    {
      UpdateCount(now, currentCount);
      len := CompactInPlace(records, len, now - window);
      restartsInWindow := Total(records, len);
    }

    method UpdateCount(now: int, currentCount: int)
      requires Valid()
      modifies this, records
      ensures Valid() && View() == Updated(old(View()), Observation(now, currentCount))
      ensures records == old(records) || fresh(records)
    {
      if !initialized {
        lastRestartCount := currentCount;
        initialized := true;
      } else {
        var delta := currentCount - lastRestartCount;
        if delta < 0 {
          lastRestartCount := currentCount;
          records := new Record[0];
          len := 0;
        } else if delta > 0 {
          Append(Record(delta, now));
          lastRestartCount := currentCount;
        }
      }
    }
  }
}
