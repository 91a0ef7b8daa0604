/**
 The diagnosis aggregator (digcore/diagnose/aggregator.go): alerts for one plugin and
 target are collected for a time window and submitted as one request.
 */
module Aggregator {
  import opened Common

  const DEFAULT_TIMEOUT: int := 60000000000
  const DEFAULT_COOLDOWN: int := 600000000000

  datatype Severity = Critical | Warning | Info | Ok | Unset

  datatype Event = Event(serial: nat, status: Severity, target: string)

  datatype Config = Config(enabled: bool, minSeverity: Severity, timeout: int, cooldown: int)

  datatype Request = Request(
    plugin: string, target: string, events: seq<Event>, checks: seq<string>, timeout: int, cooldown: int)

  function SeverityRank(s: Severity): (n: nat) {
    match s
    case Critical => 3
    case Warning => 2
    case Info => 1
    case _ => 0
  }

  predicate ShouldTrigger(cfg: Config, status: Severity) {
    cfg.enabled && SeverityRank(status) >= SeverityRank(if cfg.minSeverity.Unset? then Warning else cfg.minSeverity)
  }

  function Key(plugin: string, target: string): (k: string) {
    plugin + "::" + target
  }

  function TargetOf(e: Event, plugin: string): (t: string) {
    if e.target == "" then plugin else e.target
  }

  // ---------------------------------------------------------------- the machine

  /** A request that left the aggregator: handed to the engine, or dropped by Shutdown. */
  datatype Release = Release(key: string, request: Request, submitted: bool)

  datatype Arrival = Arrival(key: string, event: Event, plugin: string, snapshot: string)

  datatype State = State(
    pending: map<string, Request>, timers: set<string>, accepted: seq<Arrival>, released: seq<Release>)

  datatype Step =
    | Submit(event: Event, snapshot: string, plugin: string, cfg: Config, aiEnabled: bool)
    | Fire(key: string)
    | Drop(key: string)

  function Next(s: State, step: Step): (r: State) {
    match step
    case Submit(event, snapshot, plugin, cfg, aiEnabled) =>
      if !aiEnabled || event.status.Ok? || !ShouldTrigger(cfg, event.status) then s
      else
        var target := TargetOf(event, plugin);
        var key := Key(plugin, target);
        var accepted := s.accepted + [Arrival(key, event, plugin, snapshot)];
        if key in s.pending then
          var req := s.pending[key];
          s.(pending := s.pending[key := req.(events := req.events + [event], checks := req.checks + [snapshot])],
             accepted := accepted)
        else
          var timeout := if cfg.timeout == 0 then DEFAULT_TIMEOUT else cfg.timeout;
          var cooldown := if cfg.cooldown == 0 then DEFAULT_COOLDOWN else cfg.cooldown;
          State(s.pending[key := Request(plugin, target, [event], [snapshot], timeout, cooldown)],
                s.timers + {key}, accepted, s.released)
    case Fire(key) => Leave(s, key, true)
    case Drop(key) => if key in s.timers then Leave(s, key, false) else s
  }

  /** Both entries of a key are deleted; a request that was there is released. */
  function Leave(s: State, key: string, submitted: bool): (r: State) {
    State(s.pending - {key}, s.timers - {key}, s.accepted,
          if key in s.pending then s.released + [Release(key, s.pending[key], submitted)] else s.released)
  }

  const INITIAL := State(map[], {}, [], [])

  /** Any order of submissions, timer callbacks (also late ones) and shutdown steps. */
  function RunSteps(steps: seq<Step>): (s: State) {
    if steps == [] then INITIAL else Next(RunSteps(steps[..|steps| - 1]), steps[|steps| - 1])
  }

  // ---------------------------------------------------------------- conservation

  /** The events of a request, each with its check. */
  function Pairs(req: Request): (ps: seq<(Event, string)>) {
    seq(Min(|req.events|, |req.checks|), i requires 0 <= i < |req.events| && i < |req.checks| =>
      (req.events[i], req.checks[i]))
  }

  function ArrivedAt(arrivals: seq<Arrival>, key: string): (ps: seq<(Event, string)>) {
    if arrivals == [] then []
    else
      var last := arrivals[|arrivals| - 1];
      var before := ArrivedAt(arrivals[..|arrivals| - 1], key);
      if last.key == key then before + [(last.event, last.snapshot)] else before
  }

  function ReleasedFrom(released: seq<Release>, key: string): (ps: seq<(Event, string)>) {
    if released == [] then []
    else
      var last := released[|released| - 1];
      var before := ReleasedFrom(released[..|released| - 1], key);
      if last.key == key then before + Pairs(last.request) else before
  }

  /** The accepted events of a key, each with the snapshot it came with, are in order those
      released and those pending. */
  predicate Conserved(s: State, key: string) {
    ArrivedAt(s.accepted, key) ==
      if key in s.pending then ReleasedFrom(s.released, key) + Pairs(s.pending[key])
      else ReleasedFrom(s.released, key)
  }

  predicate WellFormed(req: Request, key: string) {
    && |req.events| == |req.checks| > 0
    && key == Key(req.plugin, req.target)
    && forall i :: 0 <= i < |req.events| ==> !req.events[i].status.Ok?
  }

  /** An arrival is filed under the key of its plugin and target. */
  predicate Labelled(a: Arrival) {
    a.key == Key(a.plugin, TargetOf(a.event, a.plugin))
  }

  predicate Consistent(s: State) {
    && s.pending.Keys == s.timers
    && (forall k :: k in s.pending ==> WellFormed(s.pending[k], k))
    && (forall i :: 0 <= i < |s.released| ==> WellFormed(s.released[i].request, s.released[i].key))
    && (forall i :: 0 <= i < |s.accepted| ==> Labelled(s.accepted[i]))
  }

  lemma ArrivedSnoc(arrivals: seq<Arrival>, a: Arrival, key: string)
    ensures ArrivedAt(arrivals + [a], key) ==
      if a.key == key then ArrivedAt(arrivals, key) + [(a.event, a.snapshot)] else ArrivedAt(arrivals, key)
  {
    assert (arrivals + [a])[..|arrivals|] == arrivals;
  }

  lemma ReleasedSnoc(released: seq<Release>, r: Release, key: string)
    ensures ReleasedFrom(released + [r], key) ==
      if r.key == key then ReleasedFrom(released, key) + Pairs(r.request) else ReleasedFrom(released, key)
  {
    assert (released + [r])[..|released|] == released;
  }

  lemma StepConserves(s: State, step: Step, key: string)
    requires Consistent(s) && Conserved(s, key)
    ensures Conserved(Next(s, step), key)
  {
    match step
    case Submit(_, _, _, _, _) => SubmitConserves(s, step, key);
    case Fire(k) => LeaveConserves(s, k, true, key);
    case Drop(k) => LeaveConserves(s, k, false, key);
  }

  lemma LeaveConserves(s: State, k: string, submitted: bool, key: string)
    requires Conserved(s, key)
    ensures Conserved(Leave(s, k, submitted), key)
  {
    if k in s.pending {
      ReleasedSnoc(s.released, Release(k, s.pending[k], submitted), key);
    }
  }

  lemma SubmitConserves(s: State, step: Step, key: string)
    requires Consistent(s) && Conserved(s, key) && step.Submit?
    ensures Conserved(Next(s, step), key)
  {
    var k := Key(step.plugin, TargetOf(step.event, step.plugin));
    var t := Next(s, step);
    if t.accepted != s.accepted {
      if k in s.pending {
        PairsSnoc(s.pending[k], t.pending[k], step.event, step.snapshot);
      } else {
        assert Pairs(t.pending[k]) == [(step.event, step.snapshot)];
      }
      ArrivalConserves(s, t, Arrival(k, step.event, step.plugin, step.snapshot), key);
    }
  }

  /** One more arrival, and one more pair in the window of its key. */
  lemma ArrivalConserves(s: State, t: State, a: Arrival, key: string)
    requires Conserved(s, key) && t.accepted == s.accepted + [a] && t.released == s.released
    requires a.key in t.pending && t.pending - {a.key} == s.pending - {a.key}
    requires Pairs(t.pending[a.key]) ==
      if a.key in s.pending then Pairs(s.pending[a.key]) + [(a.event, a.snapshot)] else [(a.event, a.snapshot)]
    ensures Conserved(t, key)
  {
    ArrivedSnoc(s.accepted, a, key);
    if a.key == key {
      if key in s.pending {
        Regroup(ReleasedFrom(s.released, key), Pairs(s.pending[key]), (a.event, a.snapshot));
      }
    } else {
      assert key in t.pending <==> key in t.pending - {a.key};
      assert key in s.pending <==> key in s.pending - {a.key};
      assert key in t.pending ==> t.pending[key] == (t.pending - {a.key})[key] == s.pending[key];
    }
  }

  lemma Regroup<T>(a: seq<T>, b: seq<T>, x: T)
    ensures a + (b + [x]) == a + b + [x]
  {
  }

  lemma PairsSnoc(a: Request, b: Request, event: Event, snapshot: string)
    requires |a.events| == |a.checks|
    requires b.events == a.events + [event] && b.checks == a.checks + [snapshot]
    ensures Pairs(b) == Pairs(a) + [(event, snapshot)]
  {
  }

  lemma StepKeepsConsistent(s: State, step: Step)
    requires Consistent(s)
    ensures Consistent(Next(s, step))
  {
    match step
    case Submit(_, _, _, _, _) =>
    case Fire(k) => LeaveConsistent(s, k, true);
    case Drop(k) => LeaveConsistent(s, k, false);
  }

  lemma LeaveConsistent(s: State, k: string, submitted: bool)
    requires Consistent(s)
    ensures Consistent(Leave(s, k, submitted))
  {
  }

  /** Over every run: pending requests and timers have the same keys; every request, held
      or released, has one check per event and belongs to one key; and the accepted events
      of a key, each with the snapshot submitted with it, are exactly, in order and once
      each, the ones submitted, dropped by a shutdown, or still pending. */
  lemma {:induction false} AggregatorConservation(steps: seq<Step>, key: string)
    ensures Consistent(RunSteps(steps)) && Conserved(RunSteps(steps), key)
  {
    if steps != [] {
      var n := |steps| - 1;
      AggregatorConservation(steps[..n], key);
      StepConserves(RunSteps(steps[..n]), steps[n], key);
      StepKeepsConsistent(RunSteps(steps[..n]), steps[n]);
    }
  }

  // ---------------------------------------------------------------- what is submitted

  /** The events handed to the engine for `key`, each with its check. */
  function SubmittedFrom(released: seq<Release>, key: string): (ps: seq<(Event, string)>) {
    if released == [] then []
    else
      var last := released[|released| - 1];
      var before := SubmittedFrom(released[..|released| - 1], key);
      if last.key == key && last.submitted then before + Pairs(last.request) else before
  }

  lemma {:induction false} AllSubmitted(released: seq<Release>, key: string)
    requires forall i :: 0 <= i < |released| ==> released[i].submitted
    ensures SubmittedFrom(released, key) == ReleasedFrom(released, key)
  {
    if released != [] {
      AllSubmitted(released[..|released| - 1], key);
    }
  }

  /** As long as nothing is shut down, every request that leaves is submitted. */
  lemma {:induction false} ReleasedByTimer(steps: seq<Step>)
    requires forall i :: 0 <= i < |steps| ==> !steps[i].Drop?
    ensures forall i :: 0 <= i < |RunSteps(steps).released| ==> RunSteps(steps).released[i].submitted
  {
    if steps != [] {
      ReleasedByTimer(steps[..|steps| - 1]);
    }
  }

  /** Before a shutdown, the end of a window hands over everything accepted for its key so
      far, in order, each event with the snapshot it came with. */
  lemma WindowIsSubmitted(steps: seq<Step>, key: string)
    requires forall i :: 0 <= i < |steps| ==> !steps[i].Drop?
    ensures var s := RunSteps(steps + [Fire(key)]);
      SubmittedFrom(s.released, key) == ArrivedAt(s.accepted, key) && key !in s.pending
  {
    var all := steps + [Fire(key)];
    AggregatorConservation(all, key);
    ReleasedByTimer(all);
    RunSnoc(steps, Fire(key));
    EmptyWindow(RunSteps(all), key);
  }

  lemma RunSnoc(steps: seq<Step>, step: Step)
    ensures RunSteps(steps + [step]) == Next(RunSteps(steps), step)
  {
    assert (steps + [step])[..|steps|] == steps;
  }

  lemma EmptyWindow(s: State, key: string)
    requires Conserved(s, key) && key !in s.pending
    requires forall i :: 0 <= i < |s.released| ==> s.released[i].submitted
    ensures SubmittedFrom(s.released, key) == ArrivedAt(s.accepted, key)
  {
    AllSubmitted(s.released, key);
  }

  /** A shutdown step closes the window of its key, and only that one, and submits nothing. */
  lemma DropDiscards(s: State, key: string, k: string)
    requires Consistent(s)
    ensures var t := Next(s, Drop(key));
      && t.pending == s.pending - {key} && t.timers == s.timers - {key} && t.accepted == s.accepted
      && SubmittedFrom(t.released, k) == SubmittedFrom(s.released, k)
  {
    if key in s.timers {
      var r := Release(key, s.pending[key], false);
      assert (s.released + [r])[..|s.released|] == s.released;
    }
  }

  // ---------------------------------------------------------------- what is accepted

  /** Critical outranks Warning, Warning outranks Info; an unset minimum means Warning, and a
      minimum that is no alert severity lets every status through. */
  predicate Severe(status: Severity, minimum: Severity) {
    match minimum
    case Critical => status == Critical
    case Warning => status == Critical || status == Warning
    case Unset => status == Critical || status == Warning
    case Info => status == Critical || status == Warning || status == Info
    case Ok => true
  }

  /** The submitted events that deserve a diagnosis, in order. */
  function Qualifying(steps: seq<Step>): (arrivals: seq<Arrival>) {
    if steps == [] then []
    else
      var before := Qualifying(steps[..|steps| - 1]);
      var last := steps[|steps| - 1];
      if last.Submit? && last.aiEnabled && last.cfg.enabled && last.event.status != Ok
         && Severe(last.event.status, last.cfg.minSeverity)
      then
        var target := if last.event.target == "" then last.plugin else last.event.target;
        before + [Arrival(last.plugin + "::" + target, last.event, last.plugin, last.snapshot)]
      else before
  }

  /** Over every run: accepted are, in order, exactly the submitted events whose step had AI
      and diagnosis enabled, a status other than Ok and a severity of at least the minimum. */
  lemma {:induction false} AcceptedExactly(steps: seq<Step>)
    ensures RunSteps(steps).accepted == Qualifying(steps)
  {
    if steps != [] {
      AcceptedExactly(steps[..|steps| - 1]);
    }
  }

  /** An accepted event opens a window with the settings it came with, a minute and ten
      minutes standing for unset ones; later events of the key join it unchanged. */
  lemma WindowSettings(s: State, step: Step)
    requires step.Submit? && Next(s, step).accepted != s.accepted
    ensures var t := Next(s, step);
      var target := if step.event.target == "" then step.plugin else step.event.target;
      var key := step.plugin + "::" + target;
      && key in t.pending
      && (key in s.pending ==>
            t.pending[key] == s.pending[key].(events := s.pending[key].events + [step.event],
                                              checks := s.pending[key].checks + [step.snapshot]))
      && (key !in s.pending ==>
            && key in t.timers
            && t.pending[key] == Request(step.plugin, target, [step.event], [step.snapshot],
                                         if step.cfg.timeout != 0 then step.cfg.timeout else 60 * 1000000000,
                                         if step.cfg.cooldown != 0 then step.cfg.cooldown else 600 * 1000000000))
      && forall k :: k != key ==> (k in t.pending <==> k in s.pending) && (k in s.pending ==> t.pending[k] == s.pending[k])
  {
  }

  // ---------------------------------------------------------------- keys

  /** Plugin name `q` reads like `p` followed by part of a separator. */
  predicate Shadows(p: string, q: string) {
    q == p + ":" || p + "::" <= q
  }

  lemma EqualKeysShadow(p: string, s: string, q: string, t: string)
    requires Key(p, s) == Key(q, t) && |p| < |q|
    ensures Shadows(p, q)
  {
    var k := Key(p, s);
    assert p == k[..|p|] && q == k[..|q|];
    assert k[|p|] == ':' && k[|p| + 1] == ':';
    if |q| == |p| + 1 {
      assert q == p + ":";
    } else {
      assert q[..|p| + 2] == k[..|p| + 2] == p + "::";
    }
  }

  /** Names that shadow each other get the same key for suitable, nonempty targets. */
  lemma ShadowsCollide(p: string, q: string) returns (s: string, t: string)
    requires Shadows(p, q)
    ensures s != "" && t != "" && Key(p, s) == Key(q, t)
  {
    t := "t";
    if q == p + ":" {
      s := ":t";
      assert Key(p, s) == p + ":::t" == Key(q, t);
    } else {
      var rest := q[|p| + 2..];
      s := rest + "::t";
      assert q == p + "::" + rest;
      assert Key(p, s) == p + "::" + rest + "::" + "t" == Key(q, t);
    }
  }

  /** Two plugin names can share a window key exactly when one of them is the other
      followed by ":" or by "::" and anything. */
  lemma KeysCollideIff(p: string, q: string)
    requires p != q
    ensures (exists s, t :: Key(p, s) == Key(q, t)) <==> Shadows(p, q) || Shadows(q, p)
  {
    if s, t :| Key(p, s) == Key(q, t) {
      if |p| < |q| {
        EqualKeysShadow(p, s, q, t);
      } else if |q| < |p| {
        EqualKeysShadow(q, t, p, s);
      } else {
        SameLengthNames(p, s, q, t);
      }
    }
    if Shadows(p, q) {
      var s, t := ShadowsCollide(p, q);
    } else if Shadows(q, p) {
      var t, s := ShadowsCollide(q, p);
    }
  }

  lemma SameLengthNames(p: string, s: string, q: string, t: string)
    requires Key(p, s) == Key(q, t) && |p| == |q|
    ensures p == q && s == t
  {
    var k := Key(p, s);
    assert p == k[..|p|] && q == k[..|q|];
    assert s == k[|p| + 2..] && t == k[|q| + 2..];
  }

  /** Keys tell plugins and targets apart unless one name shadows the other; names without
      ':' never do (ShadowHasColon). */
  lemma KeyInjective(p1: string, t1: string, p2: string, t2: string)
    requires Key(p1, t1) == Key(p2, t2) && !Shadows(p1, p2) && !Shadows(p2, p1)
    ensures p1 == p2 && t1 == t2
  {
    if p1 != p2 {
      KeysCollideIff(p1, p2);
    }
    SameLengthNames(p1, t1, p2, t2);
  }

  lemma ShadowHasColon(p: string, q: string)
    requires Shadows(p, q)
    ensures ':' in q
  {
    assert q[|p|] == ':';
  }

  /** So events that share a window share plugin and target, unless one plugin name shadows
      the other. */
  lemma OneTargetPerWindow(steps: seq<Step>, i: nat, j: nat)
    requires i < |RunSteps(steps).accepted| && j < |RunSteps(steps).accepted|
    requires var a := RunSteps(steps).accepted;
      a[i].key == a[j].key && !Shadows(a[i].plugin, a[j].plugin) && !Shadows(a[j].plugin, a[i].plugin)
    ensures var a := RunSteps(steps).accepted;
      a[i].plugin == a[j].plugin && TargetOf(a[i].event, a[i].plugin) == TargetOf(a[j].event, a[j].plugin)
  {
    AggregatorConservation(steps, "");
    var a := RunSteps(steps).accepted;
    KeyInjective(a[i].plugin, TargetOf(a[i].event, a[i].plugin), a[j].plugin, TargetOf(a[j].event, a[j].plugin));
  }

  /** With a ':' in a plugin name two different targets can share a key. */
  lemma KeysCollide()
    ensures Key("a", ":b") == Key("a:", "b") && ("a", ":b") != ("a:", "b")
  {
    assert Key("a", ":b") == "a:::b" == Key("a:", "b");
    assert |"a"| != |"a:"|;
  }

  // ---------------------------------------------------------------- the object

  class DiagnoseAggregator {
    var pending: map<string, Request>
    var timers: set<string>
    ghost var accepted: seq<Arrival>
    ghost var released: seq<Release>

    constructor ()
      ensures View() == INITIAL
    {
      pending, timers, accepted, released := map[], {}, [], [];
    }

    ghost function View(): (s: State)
      reads this
    {
      State(pending, timers, accepted, released)
    }

    method SubmitEvent(event: Event, snapshot: string, plugin: string, cfg: Config, aiEnabled: bool)
      modifies this
      ensures View() == Next(old(View()), Submit(event, snapshot, plugin, cfg, aiEnabled))
    {
      if !aiEnabled {
        return;
      }
      if event.status.Ok? {
        return;
      }
      if !ShouldTrigger(cfg, event.status) {
        return;
      }
      var target := event.target;
      if target == "" {
        target := plugin;
      }
      var key := plugin + "::" + target;
      accepted := accepted + [Arrival(key, event, plugin, snapshot)];
      if key in pending {
        var req := pending[key];
        pending := pending[key := req.(events := req.events + [event], checks := req.checks + [snapshot])];
        return;
      }
      var timeout := cfg.timeout;
      if timeout == 0 {
        timeout := DEFAULT_TIMEOUT;
      }
      var cooldown := cfg.cooldown;
      if cooldown == 0 {
        cooldown := DEFAULT_COOLDOWN;
      }
      pending := pending[key := Request(plugin, target, [event], [snapshot], timeout, cooldown)];
      timers := timers + {key};
    }

    /** The timer callback: it hands the request to the engine, if it still finds one. */
    method FireTimer(key: string) returns (req: Option<Request>)
      modifies this
      ensures View() == Next(old(View()), Fire(key))
      ensures req == if key in old(pending) then Some(old(pending)[key]) else None
    {
      req := if key in pending then Some(pending[key]) else None;
      pending := pending - {key};
      timers := timers - {key};
      if req.Some? {
        released := released + [Release(key, req.value, true)];
      }
    }

    /** Stops every timer and drops its request, key by key. */
    method Shutdown()
      requires Consistent(View())
      modifies this
      ensures Consistent(View()) && pending == map[] && timers == {}
      ensures accepted == old(accepted)
      ensures forall k :: Conserved(old(View()), k) ==> Conserved(View(), k)
      ensures old(released) <= released
      ensures forall i :: |old(released)| <= i < |released| ==> !released[i].submitted
    {
      while timers != {}
        invariant Consistent(View()) && accepted == old(accepted)
        invariant forall k :: Conserved(old(View()), k) ==> Conserved(View(), k)
        invariant old(released) <= released
        invariant forall i :: |old(released)| <= i < |released| ==> !released[i].submitted
        decreases |timers|
      {
        var key :| key in timers;
        ghost var before := View();
        released := released + [Release(key, pending[key], false)];
        timers := timers - {key};
        pending := pending - {key};
        assert View() == Next(before, Drop(key));
        StepKeepsConsistent(before, Drop(key));
        forall k | Conserved(before, k)
          ensures Conserved(View(), k)
        {
          StepConserves(before, Drop(key), k);
        }
      }
    }
  }
}
