/**
 One session as the machine of SessionSlots.dfy takes it: the steps of a session_start and of
 the goroutine behind it (digcore/server/session_handler.go), with their whole effect.
 */
module SessionSteps {
  import opened SessionSlots

  /** `steps` can be taken from `s`, one after the other, and lead to `t`. */
  predicate Takes(s: State, steps: seq<Step>, t: State)
    decreases |steps|, 0
  {
    if steps == [] then s == t else TakesFirst(s, steps[0], steps[1..], t)
  }

  predicate TakesFirst(s: State, step: Step, rest: seq<Step>, t: State)
    decreases |rest|, 1
  {
    Enabled(s, step) && Takes(Next(s, step), rest, t)
  }

  lemma TakesOne(s: State, step: Step)
    requires Enabled(s, step)
    ensures Takes(s, [step], Next(s, step))
  {
    assert [step][1..] == [];
  }

  lemma {:induction false} TakesJoin(s: State, a: seq<Step>, t: State, b: seq<Step>, u: State)
    requires Takes(s, a, t) && Takes(t, b, u)
    ensures Takes(s, a + b, u)
    decreases |a|
  {
    if a == [] {
      assert a + b == b;
    } else {
      assert (a + b)[1..] == a[1..] + b;
      TakesJoin(Next(s, a[0]), a[1..], t, b, u);
    }
  }

  lemma TakesMore(s: State, a: seq<Step>, t: State, step: Step)
    requires Takes(s, a, t) && Enabled(t, step)
    ensures Takes(s, a + [step], Next(t, step))
  {
    TakesOne(t, step);
    TakesJoin(s, a, t, [step], Next(t, step));
  }

  predicate Accepts(s: State, key: (nat, string), available: bool) {
    available && s.slots < s.cap && key !in s.sessions
  }

  /** The steps of one session_start: refused at once, refused as a duplicate, or accepted. */
  predicate ForStart(steps: seq<Step>, g: nat, accepted: bool) {
    && steps != [] && steps[0].Start? && steps[0].g == g
    && if accepted then steps[1..] == [Register(g), AckYes(g)]
       else steps[1..] == [] || steps[1..] == [Register(g), ReleaseRejected(g), AckNo(g)]
  }

  /** What the machine shows of one session_start once it is answered. */
  predicate AfterStart(s: State, t: State, g: nat, key: (nat, string), accepted: bool) {
    && t.cap == s.cap && t.slots == s.slots + (if accepted then 1 else 0)
    && t.sessions == (if accepted then s.sessions[key := g] else s.sessions)
    && t.wire == s.wire + [Ack(g, accepted)]
    && InPhase(t, g, if accepted then Running else Gone) && KeyOf(t, g) == key
  }

  lemma StartTakes(s: State, g: nat, key: (nat, string), available: bool) returns (steps: seq<Step>, t: State)
    requires g !in s.tasks
    ensures Takes(s, steps, t) && ForStart(steps, g, Accepts(s, key, available))
    ensures AfterStart(s, t, g, key, Accepts(s, key, available))
  {
    var start := Start(g, key.0, key.1, available);
    TakesOne(s, start);
    steps, t := [start], Next(s, start);
    if available && s.slots < s.cap {
      TakesMore(s, steps, t, Register(g));
      steps, t := steps + [Register(g)], Next(t, Register(g));
      if key in s.sessions {
        TakesMore(s, steps, t, ReleaseRejected(g));
        steps, t := steps + [ReleaseRejected(g)], Next(t, ReleaseRejected(g));
        TakesMore(s, steps, t, AckNo(g));
        steps, t := steps + [AckNo(g)], Next(t, AckNo(g));
      } else {
        TakesMore(s, steps, t, AckYes(g));
        steps, t := steps + [AckYes(g)], Next(t, AckYes(g));
      }
    }
  }

  function OutputStep(w: Wire): (step: Step) {
    if w.Output? && w.done then EmitDone(w.task) else Emit(w.task)
  }

  function OutputSteps(ws: seq<Wire>): (steps: seq<Step>) {
    if ws == [] then [] else OutputSteps(ws[..|ws| - 1]) + [OutputStep(ws[|ws| - 1])]
  }

  /** Outputs of `g` that do not claim to be the last. */
  predicate Progressing(ws: seq<Wire>, g: nat) {
    forall i :: 0 <= i < |ws| ==> ws[i] == Output(g, false)
  }

  predicate SameButWire(s: State, t: State, ws: seq<Wire>) {
    t == s.(wire := s.wire + ws)
  }

  lemma {:induction false} ProgressTakes(s: State, g: nat, ws: seq<Wire>) returns (t: State)
    requires InPhase(s, g, Running) && Progressing(ws, g)
    ensures Takes(s, OutputSteps(ws), t) && SameButWire(s, t, ws)
  {
    if ws == [] {
      t := s;
      assert s.wire + ws == s.wire;
    } else {
      var n := |ws| - 1;
      var before := ProgressTakes(s, g, ws[..n]);
      t := Next(before, Emit(g));
      TakesMore(s, OutputSteps(ws[..n]), before, Emit(g));
      assert ws == ws[..n] + [ws[n]];
      assert s.wire + ws[..n] + [ws[n]] == s.wire + ws;
    }
  }

  /** A run that has sent its outputs, the last one done=true, ends by removing its entry
      and giving its slot back. */
  lemma RunTakes(s: State, g: nat, ws: seq<Wire>) returns (steps: seq<Step>, t: State)
    requires InPhase(s, g, Running) && Progressing(ws, g)
    ensures steps == OutputSteps(ws) + [EmitDone(g)] + [Unregister(g)] + [Release(g)] && Takes(s, steps, t)
    ensures t.cap == s.cap && t.slots == s.slots - 1 && t.sessions == s.sessions - {KeyOf(s, g)}
    ensures t.wire == s.wire + ws + [Output(g, true)]
  {
    var sent := ProgressTakes(s, g, ws);
    TakesMore(s, OutputSteps(ws), sent, EmitDone(g));
    var done := Next(sent, EmitDone(g));
    TakesMore(s, OutputSteps(ws) + [EmitDone(g)], done, Unregister(g));
    var removed := Next(done, Unregister(g));
    TakesMore(s, OutputSteps(ws) + [EmitDone(g)] + [Unregister(g)], removed, Release(g));
    steps := OutputSteps(ws) + [EmitDone(g)] + [Unregister(g)] + [Release(g)];
    t := Next(removed, Release(g));
  }
}
