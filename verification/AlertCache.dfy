/**
 The objects behind the alert engine: mutable events, the cache that stores them by
 reference, and the handlers that update both (digcore/engine/engine.go, cache.go).
 Every handler is proved to take exactly the step of the machine in AlertEngine.dfy.
 */
module AlertCache {
  import opened Common
  import opened AlertEngine

  datatype Status = Critical | Warning | Info | Ok | Unknown

  class Event {
    const alertKey: string
    const status: Status
    var eventTime: int
    var firstFireTime: int
    var notifyCount: int
    var lastSent: int

    constructor (alertKey: string, status: Status, eventTime: int)
      ensures this.alertKey == alertKey && this.status == status && this.eventTime == eventTime
      ensures Unsent()
    {
      this.alertKey := alertKey;
      this.status := status;
      this.eventTime := eventTime;
      firstFireTime, notifyCount, lastSent := 0, 0, 0;
    }

    /** As BuildEvent leaves it: the engine has not written to it yet. */
    predicate Unsent()
      reads this
    {
      notifyCount == 0 && lastSent == 0
    }
  }

  /** A map from alert keys to events, by reference. */
  class EventCache {
    var records: map<string, Event>

    constructor ()
      ensures records == map[]
    {
      records := map[];
    }

    ghost predicate Valid()
      reads this
    {
      forall k :: k in records ==> records[k].alertKey == k
    }

    function Get(key: string): (e: Event?)
      reads this
    {
      if key in records then records[key] else null
    }

    method Set(e: Event)
      requires Valid()
      modifies this
      ensures Valid() && records == old(records)[e.alertKey := e]
    {
      records := records[e.alertKey := e];
    }

    method Del(key: string)
      requires Valid()
      modifies this
      ensures Valid() && records == old(records) - {key}
    {
      records := records - {key};
    }

    ghost function View(): (m: map<string, Rec>)
      reads this, records.Values
    {
      map k | k in records :: Rec(records[k].firstFireTime, records[k].notifyCount, records[k].lastSent)
    }
  }

  /** What PushRawEvents sees of one queued event. */
  datatype Raw = Raw(key: string, status: Status, time: int)

  /** Cleaning one entry: nil entries and unknown statuses add nothing; a missing time
      becomes the time of the push. */
  function CleanOne(evs: seq<Ev>, raw: Option<Raw>, now: int, accepted: bool, aggregator: bool): (r: seq<Ev>) {
    if raw.None? || raw.value.status.Unknown? then evs
    else
      var e := raw.value;
      evs + [Ev(e.key, e.status.Ok?, if e.time == 0 then now else e.time, accepted, aggregator)]
  }

  /** `start` extended by the events that survive cleaning, in queue order. */
  function Cleaned(start: seq<Ev>, raws: seq<Option<Raw>>, now: int, accepted: nat -> bool, aggregator: nat -> bool)
    : (evs: seq<Ev>)
  {
    if raws == [] then start
    else
      var n := |raws| - 1;
      CleanOne(Cleaned(start, raws[..n], now, accepted, aggregator), raws[n], now, accepted(n), aggregator(n))
  }

  /** What cleaning lets through: every event with one of the four statuses, under its key,
      as Ok or alert, at its own time or the time of the push. */
  lemma CleaningSays(evs: seq<Ev>, raw: Raw, now: int, accepted: bool, aggregator: bool)
    ensures CleanOne(evs, None, now, accepted, aggregator) == evs
    ensures raw.status == Unknown ==> CleanOne(evs, Some(raw), now, accepted, aggregator) == evs
    ensures raw.status in {Critical, Warning, Info} ==>
      CleanOne(evs, Some(raw), now, accepted, aggregator)
        == evs + [Ev(raw.key, false, if raw.time != 0 then raw.time else now, accepted, aggregator)]
    ensures raw.status == Ok ==>
      CleanOne(evs, Some(raw), now, accepted, aggregator)
        == evs + [Ev(raw.key, true, if raw.time != 0 then raw.time else now, accepted, aggregator)]
  {
  }

  ghost function Snapshot(e: Event?): (r: Option<Raw>)
    reads e
  {
    if e == null then None else Some(Raw(e.alertKey, e.status, e.eventTime))
  }

  ghost function Snapshots(queue: seq<Event?>): (raws: seq<Option<Raw>>)
    reads queue
    ensures |raws| == |queue|
    ensures forall i :: 0 <= i < |queue| ==> raws[i] == Snapshot(queue[i])
  {
    if queue == [] then []
    else Snapshots(queue[..|queue| - 1]) + [Snapshot(queue[|queue| - 1])]
  }

  class Engine {
    const cache: EventCache
    const alertingOf: string -> Alerting
    var diagnosed: set<string>
    ghost var history: seq<Ev>
    ghost var log: seq<Action>

    constructor (alertingOf: string -> Alerting)
      ensures Valid() && history == [] && this.alertingOf == alertingOf
      ensures fresh(cache) && cache.records == map[]
    {
      cache := new EventCache();
      this.alertingOf := alertingOf;
      diagnosed, history, log := {}, [], [];
    }

    /** The objects hold exactly the state the machine reaches on the history, so every
        theorem about RunEvents applies to them. */
    ghost predicate Valid()
      reads this, cache, cache.records.Values
    {
      cache.Valid() && RunEvents(alertingOf, history) == Run(View(), log)
    }

    ghost function View(): (s: State)
      reads this, cache, cache.records.Values
    {
      State(cache.View(), diagnosed)
    }

    /** Decides whether to notify; the cached event is the one whose fields are updated,
        before or after it is stored. */
    method HandleAlertEvent(alerting: Alerting, event: Event, accepted: bool) returns (sent: bool)
      requires cache.Valid() && event !in cache.records.Values && event.Unsent()
      modifies cache, event
      ensures cache.Valid() && cache.records.Values <= old(cache.records.Values) + {event}
      ensures event.eventTime == old(event.eventTime)
      ensures var v := Alert(alerting, Lookup(old(View()), event.alertKey), event.eventTime, accepted);
        sent == v.sent && cache.View() == old(cache.View())[event.alertKey := v.rec]
    {
      if cache.Get(event.alertKey) == null {
        sent := FirstAlert(alerting, event, accepted);
      } else {
        sent := RepeatedAlert(alerting, event, accepted);
      }
    }

    /** The key is not cached: the event is stored first and updated afterwards. */
    method FirstAlert(alerting: Alerting, event: Event, accepted: bool) returns (sent: bool)
      requires cache.Valid() && event !in cache.records.Values && event.Unsent()
      requires event.alertKey !in cache.records
      modifies cache, event
      ensures cache.Valid() && cache.records == old(cache.records)[event.alertKey := event]
      ensures event.eventTime == old(event.eventTime)
      ensures var v := Alert(alerting, None, event.eventTime, accepted);
        sent == v.sent && cache.View() == old(cache.View())[event.alertKey := v.rec]
    {
      event.firstFireTime := event.eventTime;
      cache.Set(event);
      if alerting.forDuration == 0 {
        if accepted {
          event.lastSent := event.eventTime;
          event.notifyCount := event.notifyCount + 1;
          return true;
        }
      }
      return false;
    }

    /** The key is cached: the event replaces the cached one only when it is sent. */
    method RepeatedAlert(alerting: Alerting, event: Event, accepted: bool) returns (sent: bool)
      requires cache.Valid() && event !in cache.records.Values && event.alertKey in cache.records
      modifies cache, event
      ensures cache.Valid()
      ensures cache.records == if sent then old(cache.records)[event.alertKey := event] else old(cache.records)
      ensures event.eventTime == old(event.eventTime)
      ensures var v := Alert(alerting, Some(old(cache.View())[event.alertKey]), event.eventTime, accepted);
        sent == v.sent && cache.View() == old(cache.View())[event.alertKey := v.rec]
    {
      var prev := cache.records[event.alertKey];
      ghost var was := cache.View();
      assert was == was[event.alertKey := was[event.alertKey]];
      if alerting.forDuration > 0 && event.eventTime - prev.firstFireTime < alerting.forDuration / SECOND {
        return false;
      }
      if alerting.repeatNumber > 0 && prev.notifyCount >= alerting.repeatNumber {
        return false;
      }
      if alerting.repeatInterval > 0 && event.eventTime - prev.lastSent < alerting.repeatInterval / SECOND {
        return false;
      }
      event.firstFireTime := prev.firstFireTime;
      event.notifyCount := prev.notifyCount + 1;
      if accepted {
        event.lastSent := event.eventTime;
        cache.Set(event);
        return true;
      }
      return false;
    }

    method HandleRecoveryEvent(alerting: Alerting, event: Event) returns (forwarded: bool)
      requires cache.Valid()
      modifies this`diagnosed, cache
      ensures cache.Valid() && cache.records == old(cache.records) - {event.alertKey}
      ensures diagnosed == old(diagnosed) - {event.alertKey}
      ensures var key := event.alertKey;
        forwarded == (key in old(View()).records && !alerting.disableRecovery && old(View()).records[key].last > 0)
    {
      diagnosed := diagnosed - {event.alertKey};
      var prev := cache.Get(event.alertKey);
      if prev == null {
        return false;
      }
      cache.Del(prev.alertKey);
      return !alerting.disableRecovery && prev.lastSent > 0;
    }

    method MayTriggerDiagnose(event: Event, aggregator: bool) returns (submitted: bool)
      modifies this`diagnosed
      ensures submitted == (aggregator && event.alertKey !in old(diagnosed))
      ensures diagnosed == if submitted then old(diagnosed) + {event.alertKey} else old(diagnosed)
    {
      if !aggregator || event.alertKey in diagnosed {
        return false;
      }
      diagnosed := diagnosed + {event.alertKey};
      return true;
    }

    /** One event of PushRawEvents, after cleaning. */
    method Dispatch(alerting: Alerting, event: Event, accepted: bool, aggregator: bool)
        returns (actions: seq<Action>)
      requires cache.Valid() && event !in cache.records.Values && event.Unsent()
      modifies this`diagnosed, cache, event
      ensures cache.Valid() && cache.records.Values <= old(cache.records.Values) + {event}
      ensures event.eventTime == old(event.eventTime)
      ensures var r := Step(alerting, old(View()),
                            Ev(event.alertKey, event.status.Ok?, event.eventTime, accepted, aggregator));
        View() == r.state && actions == r.actions
    {
      actions := [];
      if alerting.disabled {
        return;
      }
      if event.status.Ok? {
        var forwarded := HandleRecoveryEvent(alerting, event);
        actions := [Recovered(event.alertKey, event.eventTime, forwarded)];
      } else {
        var sent := HandleAlertEvent(alerting, event, accepted);
        actions := [Fired(event.alertKey, event.eventTime, sent, aggregator)];
        if sent {
          var submitted := MayTriggerDiagnose(event, aggregator);
          if submitted {
            actions := actions + [Submitted(event.alertKey)];
          }
        }
      }
    }

    /** Dispatches a cleaned event and records it. */
    method Record(event: Event, accepted: bool, aggregator: bool)
      requires Valid() && event !in cache.records.Values && event.Unsent()
      modifies this, cache, event
      ensures Valid() && cache.records.Values <= old(cache.records.Values) + {event}
      ensures history == old(history) +
        [Ev(event.alertKey, event.status.Ok?, old(event.eventTime), accepted, aggregator)]
    {
      ghost var ev := Ev(event.alertKey, event.status.Ok?, event.eventTime, accepted, aggregator);
      RunSnoc(alertingOf, history, ev);
      var actions := Dispatch(alertingOf(event.alertKey), event, accepted, aggregator);
      history := history + [ev];
      log := log + actions;
    }

    /** Cleans and dispatches one event of the queue. */
    method PushOne(event: Event, now: int, accepted: bool, aggregator: bool)
      requires Valid() && event !in cache.records.Values && event.Unsent()
      modifies this, cache, event
      ensures Valid() && cache.records.Values <= old(cache.records.Values) + {event}
      ensures history == CleanOne(old(history), old(Snapshot(event)), now, accepted, aggregator)
    {
      if event.eventTime == 0 {
        event.eventTime := now;
      }
      if event.status.Unknown? {
        return;
      }
      Record(event, accepted, aggregator);
    }

    /** Handles a queue of fresh events, one after the other. */
    method PushRawEvents(queue: seq<Event?>, now: int, accepted: nat -> bool, aggregator: nat -> bool)
      requires Valid()
      requires forall i, j :: 0 <= i < j < |queue| && queue[i] != null ==> queue[i] != queue[j]
      requires forall i :: 0 <= i < |queue| && queue[i] != null ==>
        queue[i] !in cache.records.Values && queue[i].Unsent()
      modifies this, cache, set e | e in queue && e != null
      ensures Valid()
      ensures history == Cleaned(old(history), old(Snapshots(queue)), now, accepted, aggregator)
    {
      ghost var raws := Snapshots(queue);
      for i := 0 to |queue|
        invariant Valid()
        invariant history == Cleaned(old(history), raws[..i], now, accepted, aggregator)
        invariant forall j :: i <= j < |queue| && queue[j] != null ==>
          queue[j] !in cache.records.Values && queue[j].Unsent() && raws[j] == Snapshot(queue[j])
      {
        assert raws[..i + 1][..i] == raws[..i];
        if queue[i] != null {
          PushOne(queue[i], now, accepted(i), aggregator(i));
        }
      }
      assert raws[..|queue|] == raws;
    }
  }

  lemma RunSnoc(cfg: string -> Alerting, evs: seq<Ev>, ev: Ev)
    ensures var before := RunEvents(cfg, evs);
      var step := Step(cfg(ev.key), before.state, ev);
      RunEvents(cfg, evs + [ev]) == Run(step.state, before.log + step.actions)
  {
    assert (evs + [ev])[..|evs|] == evs;
  }
}
