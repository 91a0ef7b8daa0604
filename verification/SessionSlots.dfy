/**
 Remote sessions and local diagnoses sharing one semaphore (digcore/server/
 session_handler.go, session.go; Submit, TrySem and ReleaseSem in
 digcore/diagnose/engine.go), as a machine over all interleavings. One step is one atomic
 action of one goroutine.
 */
module SessionSlots {
  import opened Common

  /** Where the handling of one session_start message stands. */
  datatype Phase =
    | Starting      // slot taken, not yet in the session map
    | Rejected      // duplicate ID found, slot still held
    | Refusing      // slot given back, negative ACK still to be sent
    | Registered    // in the session map, positive ACK still to be sent
    | Running       // goroutine started
    | Finishing     // done=true sent, deferred removal pending
    | Unregistered  // removed by ID, deferred release pending
    | Gone

  datatype Task = Task(conn: nat, id: string, phase: Phase, cancelled: bool)

  datatype Wire = Ack(task: nat, ok: bool) | Output(task: nat, done: bool)

  /** Tasks are named by the session_start message that caused them. */
  datatype State = State(
    cap: nat, slots: int, local: nat,
    tasks: map<nat, Task>,
    sessions: map<(nat, string), nat>,
    toCancel: set<nat>,
    wire: seq<Wire>)

  function Init(cap: nat): (s: State) {
    State(cap, 0, 0, map[], map[], {}, [])
  }

  datatype Step =
    | LocalSubmit
    | LocalDone
    | Start(g: nat, conn: nat, id: string, available: bool)
    | Register(g: nat)
    | ReleaseRejected(g: nat)
    | AckNo(g: nat)
    | AckYes(g: nat)
    | Emit(g: nat)
    | EmitDone(g: nat)
    | Unregister(g: nat)
    | Release(g: nat)
    | Cancel(conn: nat, id: string)
    | FireCancel(g: nat)
    | Disconnect(conn: nat)
    | CancelAll(conn: nat)

  predicate InPhase(s: State, g: nat, p: Phase) {
    g in s.tasks && s.tasks[g].phase == p
  }

  predicate Enabled(s: State, step: Step) {
    match step
    case LocalSubmit => true
    case LocalDone => s.local > 0
    case Start(g, _, _, _) => g !in s.tasks
    case Register(g) => InPhase(s, g, Starting)
    case ReleaseRejected(g) => InPhase(s, g, Rejected)
    case AckNo(g) => InPhase(s, g, Refusing)
    case AckYes(g) => InPhase(s, g, Registered)
    case Emit(g) => InPhase(s, g, Running)
    case EmitDone(g) => InPhase(s, g, Running)
    case Unregister(g) => InPhase(s, g, Finishing)
    case Release(g) => InPhase(s, g, Unregistered)
    case Cancel(_, _) => true
    case FireCancel(g) => g in s.toCancel && g in s.tasks
    case Disconnect(_) => true
    case CancelAll(_) => true
  }

  /** Where a task registers. */
  function KeyOf(s: State, g: nat): (key: (nat, string))
    requires g in s.tasks
  {
    (s.tasks[g].conn, s.tasks[g].id)
  }

  function Move(s: State, g: nat, p: Phase): (r: State)
    requires g in s.tasks
  {
    s.(tasks := s.tasks[g := s.tasks[g].(phase := p)])
  }

  /** sessionManager.remove: by connection and ID, whoever is registered there. */
  function Remove(s: State, key: (nat, string)): (r: State) {
    if key in s.sessions then
      s.(sessions := s.sessions - {key}, toCancel := s.toCancel + {s.sessions[key]})
    else s
  }

  function Next(s: State, step: Step): (r: State)
    requires Enabled(s, step)
  {
    match step
    case LocalSubmit => if s.slots < s.cap then s.(slots := s.slots + 1, local := s.local + 1) else s
    case LocalDone => s.(slots := s.slots - 1, local := s.local - 1)
    case Start(g, conn, id, available) =>
      if available && s.slots < s.cap then
        s.(slots := s.slots + 1, tasks := s.tasks[g := Task(conn, id, Starting, false)])
      else
        s.(tasks := s.tasks[g := Task(conn, id, Gone, false)], wire := s.wire + [Ack(g, false)])
    case Register(g) =>
      var t := s.tasks[g];
      if (t.conn, t.id) in s.sessions then s.(tasks := s.tasks[g := t.(phase := Rejected, cancelled := true)])
      else Move(s, g, Registered).(sessions := s.sessions[(t.conn, t.id) := g])
    case ReleaseRejected(g) => Move(s, g, Refusing).(slots := s.slots - 1)
    case AckNo(g) => Move(s, g, Gone).(wire := s.wire + [Ack(g, false)])
    case AckYes(g) => Move(s, g, Running).(wire := s.wire + [Ack(g, true)])
    case Emit(g) => s.(wire := s.wire + [Output(g, false)])
    case EmitDone(g) => Move(s, g, Finishing).(wire := s.wire + [Output(g, true)])
    case Unregister(g) =>
      var t := s.tasks[g];
      Remove(Move(s, g, Unregistered), (t.conn, t.id))
    case Release(g) => Move(s, g, Gone).(slots := s.slots - 1)
    case Cancel(conn, id) => Remove(s, (conn, id))
    case FireCancel(g) =>
      s.(tasks := s.tasks[g := s.tasks[g].(cancelled := true)], toCancel := s.toCancel - {g})
    case Disconnect(conn) =>
      s.(tasks := map g | g in s.tasks ::
           if s.tasks[g].conn == conn then s.tasks[g].(cancelled := true) else s.tasks[g])
    case CancelAll(conn) =>
      s.(sessions := map k | k in s.sessions && k.0 != conn :: s.sessions[k],
         toCancel := s.toCancel + (set k | k in s.sessions && k.0 == conn :: s.sessions[k]))
  }

  // ---------------------------------------------------------------- slots

  predicate Holds(t: Task) {
    t.phase != Gone && t.phase != Refusing
  }

  function Holders(tasks: map<nat, Task>): (gs: set<nat>) {
    set g | g in tasks && Holds(tasks[g])
  }

  predicate Live(t: Task) {
    t.phase == Registered || t.phase == Running || t.phase == Finishing
  }

  /** Occupied slots are the running local diagnoses plus the unreleased session tasks. */
  predicate SlotsConserved(s: State) {
    s.slots == s.local + |Holders(s.tasks)| && s.slots <= s.cap
  }

  /** The session map and the tasks agree. */
  predicate MapAgrees(s: State) {
    && (forall k :: k in s.sessions ==>
          && s.sessions[k] in s.tasks
          && Live(s.tasks[s.sessions[k]])
          && (s.tasks[s.sessions[k]].conn, s.tasks[s.sessions[k]].id) == k)
    && (forall g :: g in s.tasks && Live(s.tasks[g]) ==> Reachable(s, g))
  }

  /** A task the agent can still stop, or has stopped: it is in the map, its context is
      cancelled, or the call that cancels it is under way. */
  predicate Reachable(s: State, g: nat)
    requires g in s.tasks
  {
    var t := s.tasks[g];
    ((t.conn, t.id) in s.sessions && s.sessions[(t.conn, t.id)] == g) || t.cancelled || g in s.toCancel
  }

  function Weight(tasks: map<nat, Task>, g: nat): (n: nat) {
    if g in tasks && Holds(tasks[g]) then 1 else 0
  }

  /** Changing one task changes the number of holders by at most that task. */
  lemma HoldersUpdate(tasks: map<nat, Task>, g: nat, t: Task)
    ensures |Holders(tasks[g := t])| == |Holders(tasks)| - Weight(tasks, g) + if Holds(t) then 1 else 0
  {
    var rest := Holders(tasks) - {g};
    var after := Holders(tasks[g := t]);
    assert forall x :: x in after <==> if x == g then Holds(t) else x in rest;
    if Holds(t) {
      assert after == rest + {g};
    } else {
      assert after == rest;
    }
    if g in Holders(tasks) {
      assert Holders(tasks) == rest + {g};
    } else {
      assert Holders(tasks) == rest;
    }
  }

  lemma StepKeepsSlots(s: State, step: Step)
    requires SlotsConserved(s) && Enabled(s, step)
    ensures SlotsConserved(Next(s, step))
  {
    var t := Next(s, step);
    match step
    case LocalSubmit =>
    case LocalDone =>
    case Cancel(_, _) =>
    case Emit(_) =>
    case CancelAll(_) =>
    case Disconnect(_) => assert Holders(t.tasks) == Holders(s.tasks);
    case Start(g, _, _, _) => HoldersUpdate(s.tasks, g, t.tasks[g]);
    case _ => TaskStepKeepsSlots(s, step);
  }

  predicate MovesTask(step: Step) {
    step.Register? || step.ReleaseRejected? || step.AckNo? || step.AckYes? || step.EmitDone?
    || step.Unregister? || step.Release? || step.FireCancel?
  }

  lemma TaskStepKeepsSlots(s: State, step: Step)
    requires SlotsConserved(s) && Enabled(s, step) && MovesTask(step)
    ensures SlotsConserved(Next(s, step))
  {
    var t := Next(s, step);
    var g := step.g;
    HoldersUpdate(s.tasks, g, t.tasks[g]);
    assert t.tasks == s.tasks[g := t.tasks[g]];
  }

  // ---------------------------------------------------------------- the session map

  lemma RemoveKeepsMap(s: State, key: (nat, string))
    requires MapAgrees(s)
    ensures MapAgrees(Remove(s, key))
    ensures key !in Remove(s, key).sessions
  {
    var t := Remove(s, key);
    forall g | g in t.tasks && Live(t.tasks[g])
      ensures Reachable(t, g)
    {
      assert Reachable(s, g);
    }
  }

  /** Replacing a task that keeps its name, does not become live and does not lose a
      cancellation. */
  lemma RetaskKeepsMap(s: State, t: State, g: nat)
    requires MapAgrees(s) && g in s.tasks && g in t.tasks && t.tasks == s.tasks[g := t.tasks[g]]
    requires t.sessions == s.sessions && s.toCancel - {g} <= t.toCancel
    requires t.tasks[g].conn == s.tasks[g].conn && t.tasks[g].id == s.tasks[g].id
    requires Live(t.tasks[g]) <==> Live(s.tasks[g])
    requires s.tasks[g].cancelled || (g in s.toCancel && g !in t.toCancel) ==> t.tasks[g].cancelled
    ensures MapAgrees(t)
  {
    forall h | h in t.tasks && Live(t.tasks[h])
      ensures Reachable(t, h)
    {
      assert Reachable(s, h);
    }
  }

  lemma StepKeepsMap(s: State, step: Step)
    requires MapAgrees(s) && Enabled(s, step)
    ensures MapAgrees(Next(s, step))
  {
    var t := Next(s, step);
    match step
    case LocalSubmit =>
    case LocalDone =>
    case Emit(_) =>
    case Start(g, _, _, _) => StartKeepsMap(s, step);
    case Register(g) => RegisterKeepsMap(s, g);
    case Unregister(g) => UnregisterKeepsMap(s, g);
    case Cancel(conn, id) => RemoveKeepsMap(s, (conn, id));
    case Disconnect(_) => DisconnectKeepsMap(s, step);
    case CancelAll(_) => CancelAllKeepsMap(s, step);
    case _ => RetaskKeepsMap(s, t, step.g);
  }

  lemma StartKeepsMap(s: State, step: Step)
    requires MapAgrees(s) && Enabled(s, step) && step.Start?
    ensures MapAgrees(Next(s, step))
  {
    var t := Next(s, step);
    forall g | g in t.tasks && Live(t.tasks[g])
      ensures Reachable(t, g)
    {
      assert Reachable(s, g);
    }
  }

  lemma RegisterKeepsMap(s: State, g: nat)
    requires MapAgrees(s) && InPhase(s, g, Starting)
    ensures MapAgrees(Next(s, Register(g)))
  {
    var t := Next(s, Register(g));
    forall h | h in t.tasks && Live(t.tasks[h])
      ensures Reachable(t, h)
    {
      if h != g {
        assert Reachable(s, h);
      }
    }
  }

  lemma UnregisterKeepsMap(s: State, g: nat)
    requires MapAgrees(s) && InPhase(s, g, Finishing)
    ensures MapAgrees(Next(s, Unregister(g)))
  {
    var key := (s.tasks[g].conn, s.tasks[g].id);
    RemoveKeepsMap(s, key);
    var r := Remove(s, key);
    var t := Next(s, Unregister(g));
    assert t.sessions == r.sessions && t.toCancel == r.toCancel;
    forall h | h in t.tasks && Live(t.tasks[h])
      ensures Reachable(t, h)
    {
      assert Reachable(r, h);
    }
  }

  lemma DisconnectKeepsMap(s: State, step: Step)
    requires MapAgrees(s) && step.Disconnect?
    ensures MapAgrees(Next(s, step))
  {
    var t := Next(s, step);
    forall g | g in t.tasks && Live(t.tasks[g])
      ensures Reachable(t, g)
    {
      assert Reachable(s, g);
    }
  }

  lemma CancelAllKeepsMap(s: State, step: Step)
    requires MapAgrees(s) && step.CancelAll?
    ensures MapAgrees(Next(s, step))
  {
    var t := Next(s, step);
    forall g | g in t.tasks && Live(t.tasks[g])
      ensures Reachable(t, g)
    {
      assert Reachable(s, g);
    }
  }

  lemma {:induction false} InjectiveSize<K>(m: map<K, nat>, target: set<nat>)
    requires forall k :: k in m ==> m[k] in target
    requires forall j, k :: j in m && k in m && j != k ==> m[j] != m[k]
    ensures |m| <= |target|
    decreases |m|
  {
    if m != map[] {
      var k :| k in m;
      var rest := m - {k};
      InjectiveSize(rest, target - {m[k]});
      assert m.Keys == rest.Keys + {k};
      assert |rest| == |m| - 1;
    }
  }

  /** The session map never outgrows the slots. */
  lemma SessionsBounded(s: State)
    requires MapAgrees(s) && SlotsConserved(s)
    ensures |s.sessions| <= |Holders(s.tasks)| <= s.slots <= s.cap
  {
    InjectiveSize(s.sessions, Holders(s.tasks));
  }

  // ---------------------------------------------------------------- the wire

  /** What was sent about task `g`, in order. */
  function About(wire: seq<Wire>, g: nat): (ws: seq<Wire>) {
    if wire == [] then []
    else
      var last := wire[|wire| - 1];
      var before := About(wire[..|wire| - 1], g);
      if last.task == g then before + [last] else before
  }

  /** A positive ACK and then outputs that do not claim to be the last. */
  predicate Talking(ws: seq<Wire>) {
    && ws != [] && ws[0].Ack? && ws[0].ok
    && forall i :: 1 <= i < |ws| ==> ws[i].Output? && !ws[i].done
  }

  /** A complete accepted session: positive ACK, outputs, one done=true as the last. */
  predicate Finished(ws: seq<Wire>) {
    && |ws| >= 2 && Talking(ws[..|ws| - 1])
    && ws[|ws| - 1].Output? && ws[|ws| - 1].done
  }

  predicate Refused(ws: seq<Wire>) {
    |ws| == 1 && ws[0].Ack? && !ws[0].ok
  }

  function PhaseOf(s: State, g: nat): (p: Option<Phase>) {
    if g in s.tasks then Some(s.tasks[g].phase) else None
  }

  /** What must have been sent about a task in a given phase. */
  predicate Fits(p: Option<Phase>, ws: seq<Wire>) {
    match p
    case None => ws == []
    case Some(Running) => Talking(ws)
    case Some(Finishing) => Finished(ws)
    case Some(Unregistered) => Finished(ws)
    case Some(Gone) => Refused(ws) || Finished(ws)
    case Some(_) => ws == []
  }

  predicate Spoken(s: State, g: nat) {
    Fits(PhaseOf(s, g), About(s.wire, g))
  }

  lemma AboutSnoc(wire: seq<Wire>, w: Wire, g: nat)
    ensures About(wire + [w], g) == if w.task == g then About(wire, g) + [w] else About(wire, g)
  {
    assert (wire + [w])[..|wire|] == wire;
  }

  /** The one message a step sends, if any. */
  function Says(s: State, step: Step): (w: Option<Wire>)
    requires Enabled(s, step)
  {
    match step
    case Start(g, _, _, available) => if available && s.slots < s.cap then None else Some(Ack(g, false))
    case AckNo(g) => Some(Ack(g, false))
    case AckYes(g) => Some(Ack(g, true))
    case Emit(g) => Some(Output(g, false))
    case EmitDone(g) => Some(Output(g, true))
    case _ => None
  }

  lemma WireGrows(s: State, step: Step)
    requires Enabled(s, step)
    ensures var said := Says(s, step);
      Next(s, step).wire == if said.Some? then s.wire + [said.value] else s.wire
  {
  }

  lemma SilentStep(s: State, step: Step, g: nat, ws: seq<Wire>)
    requires Enabled(s, step) && Fits(PhaseOf(s, g), ws)
    requires Says(s, step).None? || Says(s, step).value.task != g
    ensures Fits(PhaseOf(Next(s, step), g), ws)
  {
  }

  lemma SpeakingStep(s: State, step: Step, g: nat, ws: seq<Wire>, more: seq<Wire>)
    requires Enabled(s, step) && Fits(PhaseOf(s, g), ws)
    requires Says(s, step).Some? && Says(s, step).value.task == g
    requires more != [] && more[|more| - 1] == Says(s, step).value && more[..|more| - 1] == ws
    ensures Fits(PhaseOf(Next(s, step), g), more)
  {
    if step.Emit? {
      KeepTalking(ws, more);
    }
  }

  lemma KeepTalking(ws: seq<Wire>, more: seq<Wire>)
    requires Talking(ws) && |more| == |ws| + 1 && more[..|ws|] == ws
    requires more[|ws|].Output? && !more[|ws|].done
    ensures Talking(more)
  {
    assert forall i :: 0 <= i < |ws| ==> more[i] == ws[i];
  }

  lemma StepKeepsWire(s: State, step: Step, g: nat)
    requires Spoken(s, g) && Enabled(s, step)
    ensures Spoken(Next(s, step), g)
  {
    var ws := About(s.wire, g);
    WireGrows(s, step);
    match Says(s, step)
    case None =>
      SilentStep(s, step, g, ws);
    case Some(w) =>
      AboutSnoc(s.wire, w, g);
      if w.task == g {
        assert (ws + [w])[..|ws|] == ws;
        SpeakingStep(s, step, g, ws, ws + [w]);
      } else {
        SilentStep(s, step, g, ws);
      }
  }

  // ---------------------------------------------------------------- single steps, written out

  /** A local diagnosis starts exactly when a slot is free, and takes it. */
  lemma LocalTakesSlot(s: State)
    ensures var t := Next(s, LocalSubmit);
      if s.slots < s.cap then t.slots == s.slots + 1 && t.local == s.local + 1 else t == s
  {
  }

  /** A cancel removes the session of that connection and ID, if there is one, and no other,
      and has it cancelled. */
  lemma CancelStops(s: State, conn: nat, id: string)
    ensures var t := Next(s, Cancel(conn, id));
      && t.sessions == s.sessions - {(conn, id)} && t.tasks == s.tasks && t.slots == s.slots
      && ((conn, id) in s.sessions ==> s.sessions[(conn, id)] in t.toCancel)
      && s.toCancel <= t.toCancel
  {
  }

  /** The call behind a cancel cancels that task and no other. */
  lemma FireCancelStops(s: State, g: nat)
    requires Enabled(s, FireCancel(g))
    ensures var t := Next(s, FireCancel(g));
      && t.tasks.Keys == s.tasks.Keys && t.tasks[g] == s.tasks[g].(cancelled := true)
      && forall h :: h in s.tasks && h != g ==> t.tasks[h] == s.tasks[h]
  {
  }

  /** A lost connection cancels all of its tasks and no other, and clearing its registry
      leaves the sessions of other connections alone. */
  lemma DisconnectStops(s: State, conn: nat)
    ensures var t := Next(s, Disconnect(conn));
      && t.tasks.Keys == s.tasks.Keys
      && forall g :: g in s.tasks ==>
           t.tasks[g] == if s.tasks[g].conn == conn then s.tasks[g].(cancelled := true) else s.tasks[g]
    ensures var t := Next(s, CancelAll(conn));
      && (forall k :: k in t.sessions <==> k in s.sessions && k.0 != conn)
      && (forall k :: k in t.sessions ==> t.sessions[k] == s.sessions[k])
      && (forall k :: k in s.sessions && k.0 == conn ==> s.sessions[k] in t.toCancel)
  {
  }

  // ---------------------------------------------------------------- all interleavings

  /** Any order of steps; a step that is not possible where it stands does nothing. */
  function RunSteps(cap: nat, steps: seq<Step>): (s: State) {
    if steps == [] then Init(cap)
    else
      var before := RunSteps(cap, steps[..|steps| - 1]);
      var step := steps[|steps| - 1];
      if Enabled(before, step) then Next(before, step) else before
  }

  lemma {:induction false} RunKeepsInvariants(cap: nat, steps: seq<Step>)
    ensures var s := RunSteps(cap, steps);
      s.cap == cap && SlotsConserved(s) && MapAgrees(s)
  {
    if steps == [] {
      assert Holders(Init(cap).tasks) == {};
    } else {
      var n := |steps| - 1;
      RunKeepsInvariants(cap, steps[..n]);
      var before := RunSteps(cap, steps[..n]);
      if Enabled(before, steps[n]) {
        StepKeepsSlots(before, steps[n]);
        StepKeepsMap(before, steps[n]);
      }
    }
  }

  /** Slot conservation over all interleavings: the semaphore holds one slot per running
      local diagnosis and per unreleased session task, never more than its capacity; the
      session map is no larger; every live task is in the map, cancelled, or about to be
      cancelled; and when all work is over every slot is free and the map is empty. */
  lemma SlotConservation(cap: nat, steps: seq<Step>)
    ensures var s := RunSteps(cap, steps);
      && s.slots == s.local + |Holders(s.tasks)|
      && |s.sessions| <= s.slots <= cap
      && (forall g :: g in s.tasks && Live(s.tasks[g]) ==> Reachable(s, g))
      && (s.local == 0 && (forall g :: g in s.tasks ==> s.tasks[g].phase == Gone) ==>
            s.slots == 0 && s.sessions == map[])
  {
    RunKeepsInvariants(cap, steps);
    var s := RunSteps(cap, steps);
    SessionsBounded(s);
    if s.local == 0 && forall g :: g in s.tasks ==> s.tasks[g].phase == Gone {
      assert Holders(s.tasks) == {};
    }
  }

  /** Session protocol over all interleavings: what is sent about each session_start is a
      prefix of a refusal or of a complete session, and is complete once the task is gone. */
  lemma {:induction false} SessionProtocol(cap: nat, steps: seq<Step>, g: nat)
    ensures Spoken(RunSteps(cap, steps), g)
  {
    if steps != [] {
      var n := |steps| - 1;
      SessionProtocol(cap, steps[..n], g);
      var before := RunSteps(cap, steps[..n]);
      if Enabled(before, steps[n]) {
        StepKeepsWire(before, steps[n], g);
      }
    }
  }

  // ---------------------------------------------------------------- who is cancelled

  /** Nothing has asked to stop task `g`. */
  predicate Undisturbed(steps: seq<Step>, g: nat, conn: nat) {
    forall i :: 0 <= i < |steps| ==> steps[i] != FireCancel(g) && steps[i] != Disconnect(conn)
  }

  /** Of the tasks nobody asked to stop, exactly those with a duplicate ID are cancelled. */
  predicate CancelledIffRejected(t: Task) {
    && (t.phase == Rejected || t.phase == Refusing ==> t.cancelled)
    && (t.phase == Starting || t.phase == Unregistered || Live(t) ==> !t.cancelled)
  }

  lemma StepKeepsCancellation(s: State, step: Step, g: nat, conn: nat)
    requires Enabled(s, step) && step != FireCancel(g) && step != Disconnect(conn)
    requires g in s.tasks ==> s.tasks[g].conn == conn && CancelledIffRejected(s.tasks[g])
    requires g in Next(s, step).tasks && Next(s, step).tasks[g].conn == conn
    ensures CancelledIffRejected(Next(s, step).tasks[g])
  {
  }

  /** Over all interleavings a session is cancelled only when its connection is lost, it was
      asked to stop, or its ID is taken; in the last case it is. */
  lemma {:induction false} CancelledOnlyWhenAsked(cap: nat, steps: seq<Step>, g: nat)
    ensures var s := RunSteps(cap, steps);
      g in s.tasks && Undisturbed(steps, g, s.tasks[g].conn) ==> CancelledIffRejected(s.tasks[g])
  {
    if steps != [] {
      var n := |steps| - 1;
      CancelledOnlyWhenAsked(cap, steps[..n], g);
      var before := RunSteps(cap, steps[..n]);
      var s := RunSteps(cap, steps);
      if g in s.tasks && Undisturbed(steps, g, s.tasks[g].conn) && Enabled(before, steps[n]) {
        if g in before.tasks {
          NameStays(before, steps[n], g);
        }
        assert forall i :: 0 <= i < n ==> steps[..n][i] == steps[i];
        StepKeepsCancellation(before, steps[n], g, s.tasks[g].conn);
      }
    }
  }

  lemma NameStays(s: State, step: Step, g: nat)
    requires Enabled(s, step) && g in s.tasks
    ensures g in Next(s, step).tasks && KeyOf(Next(s, step), g) == KeyOf(s, g)
  {
  }
}
