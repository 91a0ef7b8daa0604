/**
 The alert engine (digcore/engine/engine.go, cache.go): one state machine per alert key
 that paces notifications, forwards recoveries and triggers at most one diagnosis.
 This file is the machine on values; AlertCache.dfy is the object that implements it.
 */
module AlertEngine {
  import opened Common

  const SECOND: int := 1000000000

  /** Durations are nanoseconds. */
  datatype Alerting = Alerting(
    disabled: bool, forDuration: int, repeatInterval: int, repeatNumber: int, disableRecovery: bool)

  /** The bookkeeping fields of the cached event. */
  datatype Rec = Rec(first: int, count: int, last: int)

  datatype State = State(records: map<string, Rec>, diagnosed: set<string>)

  /** One cleaned event: its key, whether its status is Ok, its time, the answer the
      notifiers would give, and whether a diagnosis aggregator exists. */
  datatype Ev = Ev(key: string, ok: bool, time: int, accepted: bool, aggregator: bool)

  datatype Action =
    | Fired(key: string, time: int, sent: bool, aggregator: bool)
    | Recovered(key: string, time: int, forwarded: bool)
    | Submitted(key: string)

  datatype Verdict = Verdict(rec: Rec, sent: bool)

  /** handleAlertEvent for the record of one key. */
  function Alert(cfg: Alerting, old_: Option<Rec>, time: int, accepted: bool): (v: Verdict) {
    match old_
    case None =>
      if cfg.forDuration == 0 && accepted then Verdict(Rec(time, 1, time), true)
      else Verdict(Rec(time, 0, 0), false)
    case Some(rec) =>
      if cfg.forDuration > 0 && time - rec.first < cfg.forDuration / SECOND then Verdict(rec, false)
      else if cfg.repeatNumber > 0 && rec.count >= cfg.repeatNumber then Verdict(rec, false)
      else if cfg.repeatInterval > 0 && time - rec.last < cfg.repeatInterval / SECOND then Verdict(rec, false)
      else if accepted then Verdict(Rec(rec.first, rec.count + 1, time), true)
      else Verdict(rec, false)
  }

  function Lookup(s: State, key: string): (r: Option<Rec>) {
    if key in s.records then Some(s.records[key]) else None
  }

  datatype Stepped = Stepped(state: State, actions: seq<Action>)

  function Step(cfg: Alerting, s: State, ev: Ev): (r: Stepped) {
    if cfg.disabled then Stepped(s, [])
    else if ev.ok then
      var forwarded := ev.key in s.records && !cfg.disableRecovery && s.records[ev.key].last > 0;
      Stepped(State(s.records - {ev.key}, s.diagnosed - {ev.key}), [Recovered(ev.key, ev.time, forwarded)])
    else
      var v := Alert(cfg, Lookup(s, ev.key), ev.time, ev.accepted);
      var records := s.records[ev.key := v.rec];
      var fired := Fired(ev.key, ev.time, v.sent, ev.aggregator);
      if v.sent && ev.aggregator && ev.key !in s.diagnosed then
        Stepped(State(records, s.diagnosed + {ev.key}), [fired, Submitted(ev.key)])
      else Stepped(State(records, s.diagnosed), [fired])
  }

  datatype Run = Run(state: State, log: seq<Action>)

  const INITIAL := State(map[], {})

  /** Each key keeps the configuration it was given. */
  function RunEvents(cfg: string -> Alerting, evs: seq<Ev>): (r: Run) {
    if evs == [] then Run(INITIAL, [])
    else
      var before := RunEvents(cfg, evs[..|evs| - 1]);
      var ev := evs[|evs| - 1];
      var step := Step(cfg(ev.key), before.state, ev);
      Run(step.state, before.log + step.actions)
  }

  // ---------------------------------------------------------------- episodes

  /** What happened to `key` since its last Ok event. */
  function Episode(log: seq<Action>, key: string): (ep: seq<Action>) {
    if log == [] then []
    else
      var last := log[|log| - 1];
      var before := Episode(log[..|log| - 1], key);
      if last.key != key then before
      else if last.Recovered? then []
      else before + [last]
  }

  /** The event times of the alerts that were actually sent. */
  function Sends(ep: seq<Action>): (ts: seq<int>) {
    if ep == [] then []
    else
      var last := ep[|ep| - 1];
      var before := Sends(ep[..|ep| - 1]);
      if last.Fired? && last.sent then before + [last.time] else before
  }

  function Submissions(ep: seq<Action>): (n: nat) {
    if ep == [] then 0
    else Submissions(ep[..|ep| - 1]) + (if ep[|ep| - 1].Submitted? then 1 else 0)
  }

  /** An alert was sent while an aggregator existed. */
  ghost predicate Diagnosable(ep: seq<Action>) {
    exists i :: 0 <= i < |ep| && ep[i].Fired? && ep[i].sent && ep[i].aggregator
  }

  /** The pacing promises for one episode: at most RepeatNumber sends, any two of them
      at least RepeatInterval whole seconds apart, and all of them at least ForDuration
      whole seconds after the first alert. */
  ghost predicate Paced(cfg: Alerting, ep: seq<Action>) {
    && (cfg.disabled ==> ep == [])
    && (ep != [] ==> ep[0].Fired?)
    && (cfg.repeatNumber > 0 ==> |Sends(ep)| <= cfg.repeatNumber)
    && (cfg.repeatInterval > 0 ==>
          forall i, j :: 0 <= i < j < |Sends(ep)| ==>
            Sends(ep)[j] - Sends(ep)[i] >= cfg.repeatInterval / SECOND)
    && (cfg.forDuration > 0 && ep != [] ==>
          forall i :: 0 <= i < |Sends(ep)| ==> Sends(ep)[i] - ep[0].time >= cfg.forDuration / SECOND)
  }

  /** The cached record of a key is exactly what its episode says. */
  ghost predicate RecordMirrors(rec: Option<Rec>, ep: seq<Action>) {
    match rec
    case None => ep == []
    case Some(r) =>
      && ep != [] && ep[0].Fired? && r.first == ep[0].time
      && r.count == |Sends(ep)|
      && r.last == if Sends(ep) == [] then 0 else Sends(ep)[|Sends(ep)| - 1]
  }

  /** A key has been diagnosed, once, exactly when it could have been. */
  ghost predicate DiagnosisMirrors(diagnosed: bool, ep: seq<Action>) {
    && (diagnosed <==> Diagnosable(ep))
    && Submissions(ep) == if diagnosed then 1 else 0
  }

  ghost predicate Good(cfg: Alerting, s: State, key: string, ep: seq<Action>) {
    && RecordMirrors(Lookup(s, key), ep)
    && DiagnosisMirrors(key in s.diagnosed, ep)
    && Paced(cfg, ep)
  }

  lemma EpisodeSnoc(log: seq<Action>, a: Action, key: string)
    ensures Episode(log + [a], key) ==
      if a.key != key then Episode(log, key)
      else if a.Recovered? then []
      else Episode(log, key) + [a]
  {
    assert (log + [a])[..|log|] == log;
  }

  lemma EpisodeSnocs(ep: seq<Action>, a: Action)
    ensures Sends(ep + [a]) == if a.Fired? && a.sent then Sends(ep) + [a.time] else Sends(ep)
    ensures Submissions(ep + [a]) == Submissions(ep) + if a.Submitted? then 1 else 0
    ensures Diagnosable(ep + [a]) <==> Diagnosable(ep) || (a.Fired? && a.sent && a.aggregator)
  {
    var all := ep + [a];
    assert all[..|ep|] == ep;
    if Diagnosable(ep) {
      var i :| 0 <= i < |ep| && ep[i].Fired? && ep[i].sent && ep[i].aggregator;
      assert all[i] == ep[i];
    }
    if a.Fired? && a.sent && a.aggregator {
      assert all[|ep|] == a;
    }
  }

  /** One alert event keeps the record, the pacing and the diagnosis mark in step. */
  lemma AlertKeepsGood(cfg: Alerting, s: State, ev: Ev, ep: seq<Action>)
    requires Good(cfg, s, ev.key, ep) && !ev.ok && !cfg.disabled
    ensures var r := Step(cfg, s, ev); Good(cfg, r.state, ev.key, ep + r.actions)
  {
    var r := Step(cfg, s, ev);
    var v := Alert(cfg, Lookup(s, ev.key), ev.time, ev.accepted);
    var fired := Fired(ev.key, ev.time, v.sent, ev.aggregator);
    AlertKeepsPace(cfg, s, ev, ep);
    AlertKeepsRecord(cfg, Lookup(s, ev.key), ev, ep);
    AlertKeepsDiagnosis(ev.key in s.diagnosed, fired, ep);
    if |r.actions| == 2 {
      SubmittedChangesNothing(cfg, v.rec, ep + [fired], ev.key);
      assert ep + r.actions == ep + [fired] + [Submitted(ev.key)];
    } else {
      assert ep + r.actions == ep + [fired];
    }
  }

  lemma AlertKeepsRecord(cfg: Alerting, rec: Option<Rec>, ev: Ev, ep: seq<Action>)
    requires RecordMirrors(rec, ep)
    ensures var v := Alert(cfg, rec, ev.time, ev.accepted);
      RecordMirrors(Some(v.rec), ep + [Fired(ev.key, ev.time, v.sent, ev.aggregator)])
  {
    var v := Alert(cfg, rec, ev.time, ev.accepted);
    var fired := Fired(ev.key, ev.time, v.sent, ev.aggregator);
    EpisodeSnocs(ep, fired);
    assert (ep + [fired])[0] == if ep == [] then fired else ep[0];
  }

  lemma AlertKeepsDiagnosis(diagnosed: bool, fired: Action, ep: seq<Action>)
    requires DiagnosisMirrors(diagnosed, ep) && fired.Fired?
    ensures if fired.sent && fired.aggregator && !diagnosed
            then DiagnosisMirrors(true, ep + [fired] + [Submitted(fired.key)])
            else DiagnosisMirrors(diagnosed, ep + [fired])
  {
    EpisodeSnocs(ep, fired);
    EpisodeSnocs(ep + [fired], Submitted(fired.key));
  }

  lemma SubmittedChangesNothing(cfg: Alerting, rec: Rec, ep: seq<Action>, key: string)
    requires Paced(cfg, ep) && RecordMirrors(Some(rec), ep)
    ensures Paced(cfg, ep + [Submitted(key)]) && RecordMirrors(Some(rec), ep + [Submitted(key)])
  {
    EpisodeSnocs(ep, Submitted(key));
    assert (ep + [Submitted(key)])[0] == ep[0];
  }

  lemma AlertKeepsPace(cfg: Alerting, s: State, ev: Ev, ep: seq<Action>)
    requires Good(cfg, s, ev.key, ep) && !ev.ok && !cfg.disabled
    ensures var v := Alert(cfg, Lookup(s, ev.key), ev.time, ev.accepted);
      Paced(cfg, ep + [Fired(ev.key, ev.time, v.sent, ev.aggregator)])
  {
    var v := Alert(cfg, Lookup(s, ev.key), ev.time, ev.accepted);
    var fired := Fired(ev.key, ev.time, v.sent, ev.aggregator);
    EpisodeSnocs(ep, fired);
    if ep == [] {
      assert Sends(ep) == [];
    } else {
      assert (ep + [fired])[0] == ep[0];
    }
  }

  /** The per-key history is right after every run. */
  lemma {:induction false} RunIsGood(cfg: string -> Alerting, evs: seq<Ev>, key: string)
    ensures var r := RunEvents(cfg, evs);
      Good(cfg(key), r.state, key, Episode(r.log, key))
  {
    if evs != [] {
      var n := |evs| - 1;
      RunIsGood(cfg, evs[..n], key);
      var before := RunEvents(cfg, evs[..n]);
      StepIsGood(cfg(evs[n].key), cfg(key), before, evs[n], key);
    }
  }

  lemma StepIsGood(evCfg: Alerting, keyCfg: Alerting, before: Run, ev: Ev, key: string)
    requires ev.key == key ==> evCfg == keyCfg
    requires Good(keyCfg, before.state, key, Episode(before.log, key))
    ensures var r := Step(evCfg, before.state, ev);
      Good(keyCfg, r.state, key, Episode(before.log + r.actions, key))
  {
    var r := Step(evCfg, before.state, ev);
    var ep := Episode(before.log, key);
    EpisodeOfStep(evCfg, before, ev, key);
    if ev.key == key && !evCfg.disabled && !ev.ok {
      AlertKeepsGood(evCfg, before.state, ev, ep);
    } else if evCfg.disabled {
      assert before.log + r.actions == before.log;
    }
  }

  lemma EpisodeOfStep(cfg: Alerting, before: Run, ev: Ev, key: string)
    ensures var r := Step(cfg, before.state, ev);
      Episode(before.log + r.actions, key) ==
        if ev.key != key || cfg.disabled then Episode(before.log, key)
        else if ev.ok then []
        else Episode(before.log, key) + r.actions
  {
    var r := Step(cfg, before.state, ev);
    if r.actions == [] {
      assert before.log + r.actions == before.log;
    } else {
      EpisodeSnoc(before.log, r.actions[0], key);
      if |r.actions| == 2 {
        assert before.log + r.actions == before.log + [r.actions[0]] + [r.actions[1]];
        EpisodeSnoc(before.log + [r.actions[0]], r.actions[1], key);
        assert Episode(before.log, key) + r.actions
            == Episode(before.log, key) + [r.actions[0]] + [r.actions[1]];
      } else {
        assert r.actions == [r.actions[0]];
      }
    }
  }

  // ---------------------------------------------------------------- what a run guarantees

  /** Alert pacing: after every run, in the current episode of every key, the cached
      NotifyCount is the number of successful sends, FirstFireTime is the time of the
      episode's first alert, LastSent the time of its last send, and the sends are paced. */
  lemma AlertsArePaced(cfg: string -> Alerting, evs: seq<Ev>, key: string)
    ensures var r := RunEvents(cfg, evs);
      var ep := Episode(r.log, key);
      && Paced(cfg(key), ep)
      && (key in r.state.records <==> ep != [])
      && (key in r.state.records ==>
            && ep[0].Fired?
            && r.state.records[key].first == ep[0].time
            && r.state.records[key].count == |Sends(ep)|
            && r.state.records[key].last == if Sends(ep) == [] then 0 else Sends(ep)[|Sends(ep)| - 1])
  {
    RunIsGood(cfg, evs, key);
  }

  /** The time an episode's first alert came with. */
  function FirstTime(ep: seq<Action>): (t: int) {
    if ep != [] && ep[0].Fired? then ep[0].time else 0
  }

  /** When the episode so far allows an alert at time `t`: the first one only without a
      for-duration; a later one once the for-duration is over, while sends are left and not
      sooner than the repeat interval after the last send. Durations are in nanoseconds, times
      in seconds. */
  ghost predicate Due(cfg: Alerting, ep: seq<Action>, t: int) {
    if ep == [] then cfg.forDuration == 0
    else
      var sends := Sends(ep);
      var last := if sends == [] then 0 else sends[|sends| - 1];
      && (cfg.forDuration > 0 ==> t >= FirstTime(ep) + cfg.forDuration / 1000000000)
      && (cfg.repeatNumber > 0 ==> |sends| < cfg.repeatNumber)
      && (cfg.repeatInterval > 0 ==> t >= last + cfg.repeatInterval / 1000000000)
  }

  /** Over every run: an alert of an enabled key is sent if and only if the notifier takes it
      and the pacing of its episode allows it. */
  lemma SentIffDue(cfg: string -> Alerting, evs: seq<Ev>, ev: Ev)
    requires !ev.ok && !cfg(ev.key).disabled
    ensures var before := RunEvents(cfg, evs).log;
      var log := RunEvents(cfg, evs + [ev]).log;
      && |log| > |before| && log[..|before|] == before
      && log[|before|] == Fired(ev.key, ev.time, ev.accepted && Due(cfg(ev.key), Episode(before, ev.key), ev.time),
                                ev.aggregator)
  {
    var before := RunEvents(cfg, evs);
    assert (evs + [ev])[..|evs|] == evs;
    RunIsGood(cfg, evs, ev.key);
    AlertIsDue(cfg(ev.key), Lookup(before.state, ev.key), ev, Episode(before.log, ev.key));
  }

  lemma AlertIsDue(cfg: Alerting, rec: Option<Rec>, ev: Ev, ep: seq<Action>)
    requires RecordMirrors(rec, ep)
    ensures Alert(cfg, rec, ev.time, ev.accepted).sent == (ev.accepted && Due(cfg, ep, ev.time))
  {
  }

  /** An event touches nothing but its own key. */
  lemma OtherKeysUntouched(cfg: Alerting, s: State, ev: Ev, key: string)
    requires key != ev.key
    ensures var r := Step(cfg, s, ev);
      && Lookup(r.state, key) == Lookup(s, key)
      && (key in r.state.diagnosed <==> key in s.diagnosed)
      && forall i :: 0 <= i < |r.actions| ==> r.actions[i].key == ev.key
  {
  }

  /** A recovery is forwarded exactly when it is enabled and the episode it ends had a
      successful send whose last event time is positive. */
  lemma {:induction false} RecoveryForwardedIff(cfg: string -> Alerting, evs: seq<Ev>, i: nat)
    requires i < |RunEvents(cfg, evs).log| && RunEvents(cfg, evs).log[i].Recovered?
    ensures var log := RunEvents(cfg, evs).log;
      var sends := Sends(Episode(log[..i], log[i].key));
      log[i].forwarded <==>
        !cfg(log[i].key).disableRecovery && sends != [] && sends[|sends| - 1] > 0
  {
    var n := |evs| - 1;
    var before := RunEvents(cfg, evs[..n]);
    var log := RunEvents(cfg, evs).log;
    if i < |before.log| {
      RecoveryForwardedIff(cfg, evs[..n], i);
      assert log[..i] == before.log[..i];
    } else {
      var ev := evs[n];
      RecoveryStep(cfg(ev.key), before.state, ev, i - |before.log|);
      assert log[i] == Step(cfg(ev.key), before.state, ev).actions[i - |before.log|];
      assert log[..i] == before.log;
      RunIsGood(cfg, evs[..n], ev.key);
    }
  }

  /** A recovery is the only action of its event. */
  lemma RecoveryStep(cfg: Alerting, s: State, ev: Ev, i: nat)
    requires i < |Step(cfg, s, ev).actions| && Step(cfg, s, ev).actions[i].Recovered?
    ensures i == 0 && Step(cfg, s, ev).actions[0].key == ev.key
    ensures Step(cfg, s, ev).actions[0].forwarded <==>
      !cfg.disableRecovery && Lookup(s, ev.key).Some? && Lookup(s, ev.key).value.last > 0
  {
  }

  /** Whatever an episode holds happened after the Ok event that opened it. */
  lemma {:induction false} EpisodeIsRecent(log: seq<Action>, i: nat, key: string, p: nat)
    requires i < |log| && log[i].Recovered? && log[i].key == key
    requires p < |Episode(log, key)|
    ensures exists k :: i < k < |log| && log[k] == Episode(log, key)[p]
  {
    var n := |log| - 1;
    if i < n {
      var before := Episode(log[..n], key);
      if p < |before| {
        EpisodeIsRecent(log[..n], i, key, p);
        var k :| i < k < n && log[..n][k] == before[p];
        assert log[k] == Episode(log, key)[p];
      } else {
        assert log[n] == Episode(log, key)[p];
      }
    }
  }

  lemma {:induction false} SendsWitness(ep: seq<Action>) returns (p: nat)
    requires Sends(ep) != []
    ensures p < |ep| && ep[p].Fired? && ep[p].sent
  {
    var n := |ep| - 1;
    if ep[n].Fired? && ep[n].sent {
      p := n;
    } else {
      p := SendsWitness(ep[..n]);
    }
  }

  /** At most one recovery per episode: between two forwarded recoveries of a key an
      alert of that key was sent. */
  lemma RecoveriesSeparated(cfg: string -> Alerting, evs: seq<Ev>, i: nat, j: nat)
    requires i < j < |RunEvents(cfg, evs).log|
    requires var log := RunEvents(cfg, evs).log;
      log[i].Recovered? && log[j].Recovered? && log[i].key == log[j].key && log[j].forwarded
    ensures var log := RunEvents(cfg, evs).log;
      exists k :: i < k < j && log[k].Fired? && log[k].sent && log[k].key == log[j].key
  {
    var log := RunEvents(cfg, evs).log;
    var key := log[j].key;
    RecoveryForwardedIff(cfg, evs, j);
    var ep := Episode(log[..j], key);
    var p := SendsWitness(ep);
    EpisodeIsRecent(log[..j], i, key, p);
    EpisodeKeys(log[..j], key, p);
    var k :| i < k < j && log[..j][k] == ep[p];
    assert log[k] == ep[p];
  }

  lemma {:induction false} EpisodeKeys(log: seq<Action>, key: string, p: nat)
    requires p < |Episode(log, key)|
    ensures Episode(log, key)[p].key == key
  {
    var n := |log| - 1;
    if p < |Episode(log[..n], key)| {
      EpisodeKeys(log[..n], key, p);
    }
  }

  lemma {:induction false} NoSubmissionMeansRecovered(log: seq<Action>, key: string, i: nat)
    requires i < |log| && log[i] == Submitted(key) && Submissions(Episode(log, key)) == 0
    ensures exists k :: i < k < |log| && log[k].Recovered? && log[k].key == key
  {
    var n := |log| - 1;
    if log[n].Recovered? && log[n].key == key {
    } else {
      if log[n].key == key {
        EpisodeSnocs(Episode(log[..n], key), log[n]);
      }
      NoSubmissionMeansRecovered(log[..n], key, i);
      var k :| i < k < n && log[..n][k].Recovered? && log[..n][k].key == key;
      assert log[k].Recovered?;
    }
  }

  /** At most one diagnosis per episode: between two submissions of a key there is an Ok
      event of that key. */
  lemma {:induction false} SubmissionsSeparated(cfg: string -> Alerting, evs: seq<Ev>, i: nat, j: nat, key: string)
    requires i < j < |RunEvents(cfg, evs).log|
    requires RunEvents(cfg, evs).log[i] == Submitted(key) == RunEvents(cfg, evs).log[j]
    ensures var log := RunEvents(cfg, evs).log;
      exists k :: i < k < j && log[k].Recovered? && log[k].key == key
  {
    var n := |evs| - 1;
    var before := RunEvents(cfg, evs[..n]);
    var log := RunEvents(cfg, evs).log;
    var m := |before.log|;
    if j < m {
      SubmissionsSeparated(cfg, evs[..n], i, j, key);
      var k :| i < k < j && before.log[k].Recovered? && before.log[k].key == key;
      assert log[k] == before.log[k];
    } else {
      assert j == m + 1 && i < m;
      RunIsGood(cfg, evs[..n], key);
      NoSubmissionMeansRecovered(before.log, key, i);
      var k :| i < k < m && before.log[k].Recovered? && before.log[k].key == key;
      assert log[k] == before.log[k];
    }
  }
}
