/**
 Cooldowns and the daily token budget (digcore/diagnose/state.go). Expired cooldowns are
 deleted lazily and token counters are reset when the date changes.
 */
module DiagnoseState {
  const SECOND: int := 1000000000

  /** time.Time in nanoseconds, and what Unix() makes of it. */
  function Unix(t: int): (s: int) {
    t / SECOND
  }

  datatype State = State(date: int, input: int, output: int, cooldowns: map<string, int>)

  /** Calls, with the clock (nanoseconds) and the date they see. */
  datatype Call =
    | AddTokens(now: int, date: int, input: int, output: int)
    | TotalTokens(now: int, date: int)
    | UpdateCooldown(now: int, date: int, key: string, duration: int)
    | IsCooldownActive(now: int, date: int, key: string)
    | CleanExpired(now: int, date: int)

  function ResetIfNewDay(s: State, date: int): (r: State) {
    if s.date != date then s.(date := date, input := 0, output := 0) else s
  }

  function Next(s: State, c: Call): (r: State) {
    match c
    case AddTokens(_, date, input, output) =>
      var t := ResetIfNewDay(s, date);
      t.(input := t.input + input, output := t.output + output)
    case TotalTokens(_, date) => ResetIfNewDay(s, date)
    case UpdateCooldown(now, _, key, duration) =>
      s.(cooldowns := s.cooldowns[key := Unix(now + duration)])
    case IsCooldownActive(now, _, key) =>
      if key in s.cooldowns && Unix(now) >= s.cooldowns[key] then s.(cooldowns := s.cooldowns - {key}) else s
    case CleanExpired(now, _) =>
      s.(cooldowns := map k | k in s.cooldowns && Unix(now) < s.cooldowns[k] :: s.cooldowns[k])
  }

  function Active(cooldowns: map<string, int>, now: int, key: string): (b: bool) {
    key in cooldowns && Unix(now) < cooldowns[key]
  }

  function Run(date: int, calls: seq<Call>): (s: State) {
    if calls == [] then State(date, 0, 0, map[]) else Next(Run(date, calls[..|calls| - 1]), calls[|calls| - 1])
  }

  /** The clock and the date never go back. */
  predicate Ordered(date: int, calls: seq<Call>) {
    calls == [] ||
    var n := |calls| - 1;
    && Ordered(date, calls[..n])
    && calls[n].date >= (if n == 0 then date else calls[n - 1].date)
    && (n > 0 ==> calls[n].now >= calls[n - 1].now)
  }

  // ---------------------------------------------------------------- the references

  /** The latest expiry ever set per key; nothing is ever deleted. */
  function Latest(calls: seq<Call>): (m: map<string, int>) {
    if calls == [] then map[]
    else
      var before := Latest(calls[..|calls| - 1]);
      var c := calls[|calls| - 1];
      if c.UpdateCooldown? then before[c.key := Unix(c.now + c.duration)] else before
  }

  /** The input tokens added on a date. */
  function InputOn(calls: seq<Call>, date: int): (n: int) {
    if calls == [] then 0
    else
      var c := calls[|calls| - 1];
      InputOn(calls[..|calls| - 1], date) + if c.AddTokens? && c.date == date then c.input else 0
  }

  /** The output tokens added on a date. */
  function OutputOn(calls: seq<Call>, date: int): (n: int) {
    if calls == [] then 0
    else
      var c := calls[|calls| - 1];
      OutputOn(calls[..|calls| - 1], date) + if c.AddTokens? && c.date == date then c.output else 0
  }

  // ---------------------------------------------------------------- cooldowns

  /** The kept entries are the latest ones, and what is missing has expired by `now`. */
  ghost predicate Agrees(kept: map<string, int>, latest: map<string, int>, now: int) {
    && (forall k :: k in kept ==> k in latest && kept[k] == latest[k])
    && (forall k :: k in latest && k !in kept ==> Unix(now) >= latest[k])
  }

  lemma UnixMonotone(a: int, b: int)
    requires a <= b
    ensures Unix(a) <= Unix(b)
  {
  }

  lemma StepAgrees(s: State, latest: map<string, int>, before: int, c: Call)
    requires Agrees(s.cooldowns, latest, before) && before <= c.now
    ensures Agrees(Next(s, c).cooldowns,
                   if c.UpdateCooldown? then latest[c.key := Unix(c.now + c.duration)] else latest, c.now)
  {
    UnixMonotone(before, c.now);
  }

  lemma {:induction false} RunAgrees(date: int, calls: seq<Call>)
    requires Ordered(date, calls) && calls != []
    ensures Agrees(Run(date, calls).cooldowns, Latest(calls), calls[|calls| - 1].now)
  {
    var n := |calls| - 1;
    if n == 0 {
      assert calls[..0] == [];
      StepAgrees(Run(date, []), map[], calls[0].now, calls[0]);
    } else {
      RunAgrees(date, calls[..n]);
      assert calls[..n][|calls[..n]| - 1] == calls[n - 1];
      StepAgrees(Run(date, calls[..n]), Latest(calls[..n]), calls[n - 1].now, calls[n]);
    }
  }

  /** Lazy deletion is invisible: at any later time the answer is the one a map that is
      never purged would give. */
  lemma CooldownAnswers(date: int, calls: seq<Call>, now: int, key: string)
    requires Ordered(date, calls) && (calls != [] ==> now >= calls[|calls| - 1].now)
    ensures Active(Run(date, calls).cooldowns, now, key) <==> Active(Latest(calls), now, key)
  {
    if calls != [] {
      RunAgrees(date, calls);
      UnixMonotone(calls[|calls| - 1].now, now);
    }
  }

  /** The call `i` is the last one that set a cooldown for the key. */
  ghost predicate LastSet(calls: seq<Call>, key: string, i: nat) {
    && i < |calls| && calls[i].UpdateCooldown? && calls[i].key == key
    && forall j :: i < j < |calls| ==> !(calls[j].UpdateCooldown? && calls[j].key == key)
  }

  lemma {:induction false} LatestIsLastSet(calls: seq<Call>, key: string, i: nat)
    requires LastSet(calls, key, i)
    ensures key in Latest(calls) && Latest(calls)[key] == (calls[i].now + calls[i].duration) / 1000000000
  {
    var n := |calls| - 1;
    if i < n {
      LatestIsLastSet(calls[..n], key, i);
    }
  }

  lemma {:induction false} NeverSet(calls: seq<Call>, key: string)
    requires forall j :: 0 <= j < |calls| ==> !(calls[j].UpdateCooldown? && calls[j].key == key)
    ensures key !in Latest(calls)
  {
    if calls != [] {
      NeverSet(calls[..|calls| - 1], key);
    }
  }

  /** The answer in seconds: a key is cooling down exactly while the current second is before
      the one its last cooldown ends in. */
  lemma CooldownInSeconds(date: int, calls: seq<Call>, now: int, key: string, i: nat)
    requires Ordered(date, calls) && calls != [] && now >= calls[|calls| - 1].now && LastSet(calls, key, i)
    ensures Active(Run(date, calls).cooldowns, now, key) <==>
      now / 1000000000 < (calls[i].now + calls[i].duration) / 1000000000
  {
    CooldownAnswers(date, calls, now, key);
    LatestIsLastSet(calls, key, i);
  }

  lemma NoCooldown(date: int, calls: seq<Call>, now: int, key: string)
    requires Ordered(date, calls) && (calls != [] ==> now >= calls[|calls| - 1].now)
    requires forall j :: 0 <= j < |calls| ==> !(calls[j].UpdateCooldown? && calls[j].key == key)
    ensures !Active(Run(date, calls).cooldowns, now, key)
  {
    CooldownAnswers(date, calls, now, key);
    NeverSet(calls, key);
  }

  /** What is deleted and when: asking for a key deletes it exactly when it has expired, and a
      clean-up deletes every expired key; what has not expired stays as it was. */
  lemma PurgedExactly(s: State, now: int, date: int, key: string, k: string)
    ensures var t := Next(s, IsCooldownActive(now, date, key)).cooldowns;
      && (k in t <==> k in s.cooldowns && (k == key ==> now / 1000000000 < s.cooldowns[k]))
      && (k in t ==> t[k] == s.cooldowns[k])
    ensures var t := Next(s, CleanExpired(now, date)).cooldowns;
      && (k in t <==> k in s.cooldowns && now / 1000000000 < s.cooldowns[k])
      && (k in t ==> t[k] == s.cooldowns[k])
  {
  }

  // ---------------------------------------------------------------- tokens

  /** The counters belong to the stored date, and nothing was added on a later one. */
  lemma {:induction false} StoredDate(date: int, calls: seq<Call>)
    requires Ordered(date, calls)
    ensures Run(date, calls).date <= if calls == [] then date else calls[|calls| - 1].date
    ensures var s := Run(date, calls);
      s.input == InputOn(calls, s.date) && s.output == OutputOn(calls, s.date)
    ensures forall d :: d > Run(date, calls).date ==> InputOn(calls, d) == 0 && OutputOn(calls, d) == 0
  {
    if calls != [] {
      var n := |calls| - 1;
      StoredDate(date, calls[..n]);
      var s, c := Run(date, calls[..n]), calls[n];
      if n > 0 {
        assert calls[..n][|calls[..n]| - 1] == calls[n - 1];
      }
      if s.date != c.date {
        assert InputOn(calls[..n], c.date) == 0 && OutputOn(calls[..n], c.date) == 0;
      }
      forall d | d > Run(date, calls).date
        ensures InputOn(calls, d) == 0 && OutputOn(calls, d) == 0
      {
        assert InputOn(calls[..n], d) == 0 && OutputOn(calls[..n], d) == 0;
      }
    }
  }

  /** The daily budget: on any date the counters are the tokens added on that date. */
  lemma DailyTotal(date: int, calls: seq<Call>, today: int)
    requires Ordered(date, calls) && today >= if calls == [] then date else calls[|calls| - 1].date
    ensures var s := ResetIfNewDay(Run(date, calls), today);
      s.input == InputOn(calls, today) && s.output == OutputOn(calls, today)
  {
    StoredDate(date, calls);
  }

  // ---------------------------------------------------------------- the object

  class DiagnoseStateStore {
    var date: int
    var inputTokens: int
    var outputTokens: int
    var cooldowns: map<string, int>

    constructor (today: int)
      ensures View() == Run(today, [])
    {
      date, inputTokens, outputTokens, cooldowns := today, 0, 0, map[];
    }

    ghost function View(): (s: State)
      reads this
    {
      State(date, inputTokens, outputTokens, cooldowns)
    }

    method Reset(today: int)
      modifies this
      ensures View() == ResetIfNewDay(old(View()), today)
    {
      if date != today {
        date, inputTokens, outputTokens := today, 0, 0;
      }
    }

    method Add(now: int, today: int, input: int, output: int)
      modifies this
      ensures View() == Next(old(View()), AddTokens(now, today, input, output))
    {
      Reset(today);
      inputTokens := inputTokens + input;
      outputTokens := outputTokens + output;
    }

    method Total(now: int, today: int) returns (n: int)
      modifies this
      ensures View() == Next(old(View()), TotalTokens(now, today))
      ensures n == View().input + View().output
    {
      Reset(today);
      n := inputTokens + outputTokens;
    }

    method IsDailyLimitReached(now: int, today: int, limit: int) returns (reached: bool)
      modifies this
      ensures reached <==> limit > 0 && ResetIfNewDay(old(View()), today).input
                                        + ResetIfNewDay(old(View()), today).output >= limit
      ensures View() == if limit > 0 then ResetIfNewDay(old(View()), today) else old(View())
    {
      if limit <= 0 {
        return false;
      }
      var n := Total(now, today);
      reached := n >= limit;
    }

    method SetCooldown(now: int, today: int, key: string, duration: int)
      modifies this
      ensures View() == Next(old(View()), UpdateCooldown(now, today, key, duration))
    {
      cooldowns := cooldowns[key := Unix(now + duration)];
    }

    method CooldownActive(now: int, today: int, key: string) returns (active: bool)
      modifies this
      ensures View() == Next(old(View()), IsCooldownActive(now, today, key))
      ensures active <==> Active(old(cooldowns), now, key)
    {
      if key !in cooldowns {
        return false;
      }
      if Unix(now) >= cooldowns[key] {
        cooldowns := cooldowns - {key};
        return false;
      }
      return true;
    }

    /** Visits the keys in any order. */
    method Clean(now: int, today: int)
      modifies this
      ensures View() == Next(old(View()), CleanExpired(now, today))
    {
      var left := cooldowns.Keys;
      while left != {}
        invariant left <= cooldowns.Keys <= old(cooldowns).Keys
        invariant date == old(date) && inputTokens == old(inputTokens) && outputTokens == old(outputTokens)
        invariant forall k :: k in cooldowns ==> cooldowns[k] == old(cooldowns)[k]
        invariant forall k :: k in cooldowns && k !in left ==> Unix(now) < cooldowns[k]
        invariant forall k :: k in old(cooldowns) && k !in cooldowns ==> Unix(now) >= old(cooldowns)[k]
        decreases |left|
      {
        var k :| k in left;
        left := left - {k};
        if Unix(now) >= cooldowns[k] {
          cooldowns := cooldowns - {k};
        }
      }
    }
  }
}
