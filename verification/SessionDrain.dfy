/**
 Nothing gets stuck and no slot leaks: from every state the machine of SessionSlots.dfy can
 reach, finishing what is under way frees every slot and empties the session map.
 */
module SessionDrain {
  import opened SessionSlots
  import opened SessionSteps

  /** How many phases a task has still to go through. */
  function Remaining(p: Phase): (n: nat) {
    match p
    case Starting => 6
    case Rejected => 2
    case Refusing => 1
    case Registered => 4
    case Running => 3
    case Finishing => 2
    case Unregistered => 1
    case Gone => 0
  }

  /** The step a task waits for. */
  function Pending(p: Phase, g: nat): (step: Step)
    requires p != Gone
  {
    match p
    case Starting => Register(g)
    case Rejected => ReleaseRejected(g)
    case Refusing => AckNo(g)
    case Registered => AckYes(g)
    case Running => EmitDone(g)
    case Finishing => Unregister(g)
    case Unregistered => Release(g)
  }

  /** Steps that finish work: none of them begins any. */
  predicate Finishes(step: Step) {
    step.LocalDone? || (MovesTask(step) && !step.FireCancel?)
  }

  predicate AllFinish(steps: seq<Step>) {
    forall i :: 0 <= i < |steps| ==> Finishes(steps[i])
  }

  /** Only task `g` has changed. */
  predicate OthersWait(s: State, t: State, g: nat) {
    && t.local == s.local && t.tasks.Keys == s.tasks.Keys
    && forall h :: h in s.tasks && h != g ==> t.tasks[h] == s.tasks[h]
  }

  /** A task that is not over can take its next step, and is closer to its end after it. */
  lemma NeverStuck(s: State, g: nat)
    requires g in s.tasks && s.tasks[g].phase != Gone
    ensures var step := Pending(s.tasks[g].phase, g);
      && Enabled(s, step) && Finishes(step) && OthersWait(s, Next(s, step), g)
      && Remaining(Next(s, step).tasks[g].phase) < Remaining(s.tasks[g].phase)
  {
  }

  lemma {:induction false} FinishTask(s: State, g: nat) returns (steps: seq<Step>, t: State)
    requires g in s.tasks
    ensures Takes(s, steps, t) && AllFinish(steps) && OthersWait(s, t, g) && InPhase(t, g, Gone)
    decreases Remaining(s.tasks[g].phase)
  {
    if s.tasks[g].phase == Gone {
      steps, t := [], s;
    } else {
      NeverStuck(s, g);
      var step := Pending(s.tasks[g].phase, g);
      var rest;
      rest, t := FinishTask(Next(s, step), g);
      steps := [step] + rest;
      assert steps[1..] == rest;
    }
  }

  function Unfinished(s: State): (gs: set<nat>) {
    set g | g in s.tasks && s.tasks[g].phase != Gone
  }

  lemma {:induction false} FinishTasks(s: State) returns (steps: seq<Step>, t: State)
    ensures Takes(s, steps, t) && AllFinish(steps) && t.local == s.local && Unfinished(t) == {}
    decreases |Unfinished(s)|
  {
    if Unfinished(s) == {} {
      steps, t := [], s;
    } else {
      var g :| g in Unfinished(s);
      var first, u := FinishTask(s, g);
      assert Unfinished(u) == Unfinished(s) - {g};
      var rest;
      rest, t := FinishTasks(u);
      TakesJoin(s, first, u, rest, t);
      steps := first + rest;
    }
  }

  lemma {:induction false} FinishLocal(s: State) returns (steps: seq<Step>, t: State)
    ensures Takes(s, steps, t) && AllFinish(steps) && t.local == 0
    decreases s.local
  {
    if s.local == 0 {
      steps, t := [], s;
    } else {
      var rest;
      rest, t := FinishLocal(Next(s, LocalDone));
      steps := [LocalDone] + rest;
      assert steps[1..] == rest;
    }
  }

  lemma {:induction false} RunTakesMore(cap: nat, steps: seq<Step>, more: seq<Step>, t: State)
    requires Takes(RunSteps(cap, steps), more, t)
    ensures RunSteps(cap, steps + more) == t
    decreases |more|
  {
    if more == [] {
      assert steps + more == steps;
    } else {
      var all := steps + [more[0]];
      assert all[..|steps|] == steps;
      assert steps + more == all + more[1..];
      RunTakesMore(cap, all, more[1..], t);
    }
  }

  /** From every reachable state, steps that only finish work lead to a state in which all
      work is over, every slot is free and no session is registered. */
  lemma SlotsComeBack(cap: nat, steps: seq<Step>) returns (more: seq<Step>)
    ensures AllFinish(more)
    ensures var s := RunSteps(cap, steps + more);
      s.local == 0 && Unfinished(s) == {} && s.slots == 0 && s.sessions == map[]
  {
    var s := RunSteps(cap, steps);
    var a, t := FinishLocal(s);
    var b, u := FinishTasks(t);
    TakesJoin(s, a, t, b, u);
    more := a + b;
    RunTakesMore(cap, steps, more, u);
    SlotConservation(cap, steps + more);
    assert forall g :: g in u.tasks && u.tasks[g].phase != Gone ==> g in Unfinished(u);
  }
}
