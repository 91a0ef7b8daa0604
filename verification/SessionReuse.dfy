/**
 What the deferred removal by ID can hit (digcore/server/session_handler.go): a session that
 reuses the ID of one that was cancelled before it finished.
 */
module SessionReuse {
  import opened Common
  import opened SessionSlots

  /** When `g` unregisters, it removes and cancels a registration that is not its own. */
  ghost predicate Hits(s: State, g: nat)
    requires InPhase(s, g, Finishing)
  {
    var t := Next(s, Unregister(g));
    exists k :: k in s.sessions && s.sessions[k] != g && k !in t.sessions && s.sessions[k] in t.toCancel
  }

  lemma HitsIffTaken(s: State, g: nat)
    requires InPhase(s, g, Finishing)
    ensures Hits(s, g) <==> Holder(s, KeyOf(s, g)).Some? && Holder(s, KeyOf(s, g)).value != g
  {
    var key := KeyOf(s, g);
    var t := Next(s, Unregister(g));
    if key in s.sessions && s.sessions[key] != g {
      assert key !in t.sessions && s.sessions[key] in t.toCancel;
    }
  }

  function Holder(s: State, key: (nat, string)): (h: Option<nat>) {
    if key in s.sessions then Some(s.sessions[key]) else None
  }

  /** Who is registered under `key` after the first `m` steps. */
  function HolderAt(cap: nat, steps: seq<Step>, m: nat, key: (nat, string)): (h: Option<nat>)
    requires m <= |steps|
  {
    Holder(RunSteps(cap, steps[..m]), key)
  }

  /** A registration appears only where there was none, and only by registering. */
  lemma HolderStep(cap: nat, steps: seq<Step>, m: nat, key: (nat, string))
    requires m < |steps|
    ensures var (before, after) := (HolderAt(cap, steps, m, key), HolderAt(cap, steps, m + 1, key));
      after == before || after.None? || (before.None? && after.Some? && steps[m] == Register(after.value))
  {
    assert steps[..m + 1][..m] == steps[..m];
  }

  lemma {:induction false} LastRegistration(cap: nat, steps: seq<Step>, n: nat, key: (nat, string)) returns (j: nat)
    requires n <= |steps| && HolderAt(cap, steps, n, key).Some?
    ensures j < n && steps[j] == Register(HolderAt(cap, steps, n, key).value)
    ensures HolderAt(cap, steps, j, key).None?
    ensures forall m :: j < m <= n ==> HolderAt(cap, steps, m, key) == HolderAt(cap, steps, n, key)
  {
    HolderStep(cap, steps, n - 1, key);
    if HolderAt(cap, steps, n - 1, key) == HolderAt(cap, steps, n, key) {
      j := LastRegistration(cap, steps, n - 1, key);
    } else {
      j := n - 1;
    }
  }

  predicate PastRegistration(t: Task) {
    Live(t) || t.phase == Unregistered
  }

  /** A task that runs or has run was registered. */
  lemma {:induction false} WasRegistered(cap: nat, steps: seq<Step>, n: nat, g: nat) returns (r: nat)
    requires n <= |steps|
    requires var s := RunSteps(cap, steps[..n]); g in s.tasks && PastRegistration(s.tasks[g])
    ensures r <= n && HolderAt(cap, steps, r, KeyOf(RunSteps(cap, steps[..n]), g)) == Some(g)
  {
    var before := RunSteps(cap, steps[..n - 1]);
    RunNext(cap, steps, n - 1);
    if Enabled(before, steps[n - 1]) {
      RegistrationStep(before, steps[n - 1], g);
    }
    if g in before.tasks && PastRegistration(before.tasks[g]) {
      r := WasRegistered(cap, steps, n - 1, g);
    } else {
      r := n;
    }
  }

  lemma RunNext(cap: nat, steps: seq<Step>, n: nat)
    requires n < |steps|
    ensures var s := RunSteps(cap, steps[..n]);
      RunSteps(cap, steps[..n + 1]) == if Enabled(s, steps[n]) then Next(s, steps[n]) else s
  {
    assert steps[..n + 1][..n] == steps[..n];
  }

  lemma RegistrationStep(s: State, step: Step, g: nat)
    requires Enabled(s, step)
    requires var t := Next(s, step); g in t.tasks && PastRegistration(t.tasks[g])
    ensures var t := Next(s, step);
      if g in s.tasks && PastRegistration(s.tasks[g]) then KeyOf(t, g) == KeyOf(s, g)
      else Holder(t, KeyOf(t, g)) == Some(g)
  {
  }

  /** Somewhere between two points a registration was taken away. */
  lemma {:induction false} TakenBetween(cap: nat, steps: seq<Step>, a: nat, b: nat, key: (nat, string), g: nat)
      returns (i: nat)
    requires a <= b <= |steps|
    requires HolderAt(cap, steps, a, key) == Some(g) && HolderAt(cap, steps, b, key).None?
    ensures a <= i < b && HolderAt(cap, steps, i, key) == Some(g) && HolderAt(cap, steps, i + 1, key).None?
    decreases b - a
  {
    HolderStep(cap, steps, a, key);
    if HolderAt(cap, steps, a + 1, key) == Some(g) {
      i := TakenBetween(cap, steps, a + 1, b, key, g);
    } else {
      i := a;
    }
  }

  /** Step `i` takes away the registration of `g`, step `j` registers another task under the
      same key, and that one is still there at the end. */
  predicate TakenThenReused(cap: nat, steps: seq<Step>, key: (nat, string), g: nat, i: nat, j: nat) {
    && i < j < |steps| && steps[j].Register? && steps[j].g != g
    && HolderAt(cap, steps, i, key) == Some(g) && HolderAt(cap, steps, i + 1, key).None?
    && HolderAt(cap, steps, |steps|, key) == Some(steps[j].g)
  }

  /** Over every run: a finishing task removes another task's registration exactly when its
      own was taken away earlier and its ID has been registered again since. */
  lemma FinishingHitsSuccessor(cap: nat, steps: seq<Step>, g: nat)
    requires InPhase(RunSteps(cap, steps), g, Finishing)
    ensures var s := RunSteps(cap, steps);
      Hits(s, g) <==> exists i, j :: TakenThenReused(cap, steps, KeyOf(s, g), g, i, j)
  {
    var s := RunSteps(cap, steps);
    var key := KeyOf(s, g);
    HitsIffTaken(s, g);
    assert steps[..|steps|] == steps;
    if Hits(s, g) {
      var j := LastRegistration(cap, steps, |steps|, key);
      var r := WasRegistered(cap, steps, |steps|, g);
      var i := TakenBetween(cap, steps, r, j, key, g);
      assert TakenThenReused(cap, steps, key, g, i, j);
    }
  }

  /** A server that never reuses an ID on a connection is safe: no task removes another
      task's registration. */
  lemma FreshIdsAreSafe(cap: nat, steps: seq<Step>, g: nat)
    requires InPhase(RunSteps(cap, steps), g, Finishing)
    requires var s := RunSteps(cap, steps);
      forall a, b :: a in s.tasks && b in s.tasks && KeyOf(s, a) == KeyOf(s, b) ==> a == b
    ensures !Hits(RunSteps(cap, steps), g)
  {
    RunKeepsInvariants(cap, steps);
    UniqueKeysAreSafe(RunSteps(cap, steps), g);
  }

  lemma UniqueKeysAreSafe(s: State, g: nat)
    requires InPhase(s, g, Finishing) && MapAgrees(s)
    requires forall a, b :: a in s.tasks && b in s.tasks && KeyOf(s, a) == KeyOf(s, b) ==> a == b
    ensures !Hits(s, g)
  {
    HitsIffTaken(s, g);
  }

  /** It does happen, from any state with a free slot: a running session is cancelled, its
      ID reused, and the end of the first run unregisters and cancels the second. */
  lemma ReusedIdIsHit(s: State, g: nat, h: nat)
    requires InPhase(s, g, Running) && h !in s.tasks && s.slots < s.cap
    requires (s.tasks[g].conn, s.tasks[g].id) in s.sessions
    ensures
      var (conn, id) := (s.tasks[g].conn, s.tasks[g].id);
      var s1 := Next(s, Cancel(conn, id));
      Enabled(s1, Start(h, conn, id, true)) &&
      var s2 := Next(s1, Start(h, conn, id, true));
      Enabled(s2, Register(h)) &&
      var s3 := Next(s2, Register(h));
      Enabled(s3, AckYes(h)) &&
      var s4 := Next(s3, AckYes(h));
      Enabled(s4, EmitDone(g)) &&
      var s5 := Next(s4, EmitDone(g));
      Enabled(s5, Unregister(g)) &&
      var s6 := Next(s5, Unregister(g));
      InPhase(s6, h, Running) && (conn, id) !in s6.sessions && h in s6.toCancel
  {
    var (conn, id) := (s.tasks[g].conn, s.tasks[g].id);
    var s3 := Next(Next(Next(s, Cancel(conn, id)), Start(h, conn, id, true)), Register(h));
    assert s3.sessions[(conn, id)] == h && InPhase(s3, h, Registered) && InPhase(s3, g, Running);
  }

  const REUSE: seq<Step> := [
    Start(0, 0, "id", true), Register(0), AckYes(0), Cancel(0, "id"),
    Start(1, 0, "id", true), Register(1), AckYes(1), EmitDone(0)]

  lemma FirstRunning()
    ensures var s := RunSteps(2, REUSE[..3]);
      && InPhase(s, 0, Running) && 1 !in s.tasks && s.slots < s.cap && KeyOf(s, 0) == (0, "id")
  {
    assert REUSE[..0] == [];
    RunNext(2, REUSE, 0);
    RunNext(2, REUSE, 1);
    RunNext(2, REUSE, 2);
  }

  lemma FirstCancelled()
    ensures var s := RunSteps(2, REUSE[..4]);
      && InPhase(s, 0, Running) && 1 !in s.tasks && s.slots < s.cap && KeyOf(s, 0) == (0, "id")
      && Holder(s, (0, "id")).None?
  {
    FirstRunning();
    RunNext(2, REUSE, 3);
  }

  lemma SecondStarted()
    ensures var s := RunSteps(2, REUSE[..5]);
      && InPhase(s, 0, Running) && InPhase(s, 1, Starting) && KeyOf(s, 0) == KeyOf(s, 1) == (0, "id")
      && Holder(s, (0, "id")).None?
  {
    FirstCancelled();
    RunNext(2, REUSE, 4);
  }

  lemma SecondRegistered()
    ensures var s := RunSteps(2, REUSE[..6]);
      && InPhase(s, 0, Running) && InPhase(s, 1, Registered) && KeyOf(s, 0) == (0, "id")
      && Holder(s, (0, "id")) == Some(1)
  {
    SecondStarted();
    RunNext(2, REUSE, 5);
  }

  /** With two slots and one connection, eight steps from the start lead to such a hit. */
  lemma ReuseIsReachable()
    ensures InPhase(RunSteps(2, REUSE), 0, Finishing) && Hits(RunSteps(2, REUSE), 0)
  {
    SecondRegistered();
    RunNext(2, REUSE, 6);
    RunNext(2, REUSE, 7);
    assert REUSE[..8] == REUSE;
    HitsIffTaken(RunSteps(2, REUSE), 0);
  }
}
