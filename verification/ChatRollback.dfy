/**
 What an error leaves behind when a context limit is set (HandleMessage and
 conversationLoop in digcore/diagnose/streaming.go). The rollback re-slices to a length
 counted before the rounds, over whatever store compaction and appends have made since.
 */
module ChatRollback {
  import opened ChatHistory
  import opened ChatStream
  import opened ChatForm

  const NO_USAGE := Usage(0, 0, 0)

  // ---------------------------------------------------------------- rounds

  /** The AI asks for tools in this round, so another round follows. */
  predicate GoesOn(env: Env, k: nat) {
    && k < CHAT_MAX_ROUNDS && !env.cancelled(k) && env.chat(k).ChatReplied?
    && env.chat(k).choices != [] && env.chat(k).choices[0].toolCalls != []
  }

  /** What the AI asks for in a round that goes on. */
  function Asked(env: Env, k: nat): (c: Choice) {
    if GoesOn(env, k) then env.chat(k).choices[0] else Choice("", "", [])
  }

  /** The message fails in this round, if it gets there. */
  predicate FailsAt(env: Env, k: nat) {
    && k < CHAT_MAX_ROUNDS
    && (env.cancelled(k) || env.chat(k).ChatFailed? || env.chat(k).choices == [])
  }

  /** Round `k` is reached. */
  predicate Reaches(env: Env, k: nat) {
    k == 0 || (Reaches(env, k - 1) && GoesOn(env, k - 1))
  }

  /** The history at the start of round `k`. */
  function SliceAt(s: Slice, compact: Slice -> Slice, env: Env, k: nat): (r: Slice)
    requires Reaches(env, k)
  {
    if k == 0 then s
    else ToolRound(compact(SliceAt(s, compact, env, k - 1)), Asked(env, k - 1), k - 1, env)
  }

  lemma NextSlice(s: Slice, compact: Slice -> Slice, env: Env, k: nat)
    requires Reaches(env, k + 1)
    ensures SliceAt(s, compact, env, k + 1) == ToolRound(compact(SliceAt(s, compact, env, k)), Asked(env, k), k, env)
  {
  }

  /** The history a run that fails in round `k` ends with: a cancelled round does not get
      as far as compacting. */
  function FailedSlice(s: Slice, compact: Slice -> Slice, env: Env, k: nat): (r: Slice)
    requires Reaches(env, k)
  {
    var last := SliceAt(s, compact, env, k);
    if env.cancelled(k) then last else compact(last)
  }

  lemma {:induction false} RunAt(s: Slice, compact: Slice -> Slice, env: Env, k: nat) returns (u: Usage)
    requires Reaches(env, k)
    ensures Converse(s, compact, env, 0, NO_USAGE) == Converse(SliceAt(s, compact, env, k), compact, env, k, u)
  {
    if k == 0 {
      u := NO_USAGE;
    } else {
      var before := RunAt(s, compact, env, k - 1);
      u := before.Add(env.chat(k - 1).usage);
    }
  }

  /** A run that fails in round `k` ends with the history of that round. */
  lemma RunFails(s: Slice, compact: Slice -> Slice, env: Env, k: nat)
    requires Reaches(env, k) && FailsAt(env, k)
    ensures var r := Converse(s, compact, env, 0, NO_USAGE);
      r.outcome == Failed && r.messages == FailedSlice(s, compact, env, k)
  {
    var u := RunAt(s, compact, env, k);
  }

  /** Every failed run fails in some round. */
  lemma {:induction false} FailingRound(s: Slice, compact: Slice -> Slice, env: Env, from: nat) returns (k: nat)
    requires Reaches(env, from) && Converse(s, compact, env, 0, NO_USAGE).outcome == Failed
    ensures Reaches(env, k) && FailsAt(env, k)
    decreases CHAT_MAX_ROUNDS - from
  {
    var u := RunAt(s, compact, env, from);
    if GoesOn(env, from) {
      k := FailingRound(s, compact, env, from + 1);
    } else {
      k := from;
    }
  }

  /** Re-slicing to `n` messages: a new length over the same store, or a panic. */
  predicate ResliceOf(h: Handled, store: seq<Message>, n: nat) {
    if n <= |store| then h.RolledBack? && View(h.messages) == store[..n] else h.Panicked?
  }

  /** What a failed message comes to. */
  lemma HandleFails(s: Slice, limit: int, env: Env, input: string, k: nat)
    requires Reaches(env, k) && FailsAt(env, k)
    ensures var started := Started(s, input, env);
      var h := Handle(s, limit, env, input);
      var f := FailedSlice(started, Compactor(limit), env, k);
      ResliceOf(h, f.store, started.len - 1) && (h.Panicked? ==> h.messages == f)
  {
    RunFails(Started(s, input, env), Compactor(limit), env, k);
  }

  lemma CompactorIsCompactSlice(s: Slice, limit: int)
    ensures Compactor(limit)(s) == CompactSlice(s, limit)
  {
  }

  lemma CompactorShows(s: Slice, limit: int)
    ensures View(Compactor(limit)(s)) == Compacted(View(s), limit)
  {
    CompactSliceView(s, limit);
  }

  lemma FreshShape(ms: seq<Message>, limit: int) returns (cut: nat)
    requires Compact(ms, limit).Fresh?
    ensures ms != [] && Sticky(ms) < cut < |ms|
    ensures Compact(ms, limit).kept == ms[..Sticky(ms)] + ms[cut..]
  {
    var rest := limit - Tokens(ms[..Sticky(ms)]);
    DecideByCut(ms, Sticky(ms), rest);
    cut := Cut(ms, Sticky(ms), rest);
  }

  // ---------------------------------------------------------------- what every run keeps

  /** A front part that no compaction drops: the system prompt, and a user turn after it. */
  predicate StickyPart(pre: seq<Message>) {
    1 <= |pre| <= 2 && (|pre| == 2 ==> pre[1].role.User? && pre[1].toolCalls == [])
  }

  lemma CompactedKeepsPart(ms: seq<Message>, limit: int, pre: seq<Message>)
    requires StickyPart(pre) && pre <= ms
    ensures pre <= Compacted(ms, limit)
  {
    assert |pre| == 2 ==> ms[1] == pre[1];
    assert |pre| <= Sticky(ms);
    match Compact(ms, limit)
    case Same =>
    case Prefix(n) =>
      PrefixIsSticky(ms, limit);
    case Fresh(kept) =>
      var cut := FreshShape(ms, limit);
  }

  ghost predicate KeepsPart(compact: Slice -> Slice, pre: seq<Message>) {
    forall s: Slice :: pre <= View(s) ==> pre <= View(compact(s))
  }

  lemma CompactorKeepsPart(limit: int, pre: seq<Message>)
    requires StickyPart(pre)
    ensures KeepsPart(Compactor(limit), pre)
  {
    forall s: Slice | pre <= View(s)
      ensures pre <= View(Compactor(limit)(s))
    {
      CompactedKeepsPart(View(s), limit, pre);
      CompactorShows(s, limit);
    }
  }

  /** No round loses a part that compaction keeps. */
  lemma {:induction false} ConverseKeepsPart(s: Slice, compact: Slice -> Slice, env: Env, round: nat, usage: Usage,
                                             pre: seq<Message>)
    requires KeepsPart(compact, pre) && pre <= View(s)
    ensures pre <= View(Converse(s, compact, env, round, usage).messages)
    decreases CHAT_MAX_ROUNDS - round
  {
    if GoesOn(env, round) {
      var choice := env.chat(round).choices[0];
      ToolRoundView(compact(s), choice, round, env);
      ConverseKeepsPart(ToolRound(compact(s), choice, round, env), compact, env, round + 1,
                        usage.Add(env.chat(round).usage), pre);
    }
  }

  /** The promise of HandleMessage: the trimmed history without the new turn. */
  predicate Exactly(h: Handled, ms: seq<Message>) {
    ms != [] && h.RolledBack? && View(h.messages) == ms[..|ms| - 1]
  }

  lemma FinishKeepsPart(r: LoopResult, ms: seq<Message>, p: nat)
    requires r.outcome == Failed && |ms| - 1 <= p <= |ms| && ms != [] && ms[..p] <= View(r.messages)
    ensures Exactly(Finish(r, |ms| - 1), ms)
  {
    var n := |ms| - 1;
    assert r.messages.store[..n] == View(r.messages)[..n] == ms[..p][..n] == ms[..n];
  }

  /** A short history is always rolled back exactly, whatever is compacted and when: all
      of it is the system prompt and the user turn that compaction never drops. */
  lemma ShortHistoryRollsBack(s: Slice, limit: int, env: Env, input: string)
    requires !Handle(s, limit, env, input).Answered?
    requires var ms := View(Started(s, input, env)); |ms| - 1 <= Sticky(ms)
    ensures Exactly(Handle(s, limit, env, input), View(Started(s, input, env)))
  {
    var started := Started(s, input, env);
    CompactorKeepsPart(limit, View(started)[..Sticky(View(started))]);
    ShortRunRollsBack(started, Compactor(limit), env, Sticky(View(started)));
  }

  lemma ShortRunRollsBack(started: Slice, compact: Slice -> Slice, env: Env, p: nat)
    requires 1 <= started.len <= p + 1 && p <= started.len && KeepsPart(compact, View(started)[..p])
    requires !Conversed(started, compact, env).Answered?
    ensures Exactly(Conversed(started, compact, env), View(started))
  {
    ConverseKeepsPart(started, compact, env, 0, NO_USAGE, View(started)[..p]);
    FinishKeepsPart(Converse(started, compact, env, 0, NO_USAGE), View(started), p);
  }

  // ---------------------------------------------------------------- form

  lemma {:induction false} SliceAtWellFormed(s: Slice, compact: Slice -> Slice, env: Env, k: nat)
    requires Reaches(env, k) && KeepsForm(compact) && WellFormed(View(s))
    ensures WellFormed(View(SliceAt(s, compact, env, k)))
  {
    if k > 0 {
      SliceAtWellFormed(s, compact, env, k - 1);
      ToolRoundKeepsForm(compact(SliceAt(s, compact, env, k - 1)), Asked(env, k - 1), k - 1, env);
    }
  }

  /** The first `n` messages of the store make a well-formed history: the cut is not in
      front of a tool answer, or what lies behind the live part is complete by itself. */
  predicate Tidy(f: Slice, n: nat)
    requires n <= |f.store|
  {
    if n <= f.len then n == f.len || !f.store[n].role.Tool? else Turns(f.store[f.len..n])
  }

  lemma TidyIff(f: Slice, n: nat)
    requires WellFormed(View(f)) && 1 <= n <= |f.store|
    ensures WellFormed(f.store[..n]) <==> Tidy(f, n)
  {
    if n <= f.len {
      PrefixKeepsFormIff(View(f), n);
      assert View(f)[..n] == f.store[..n];
    } else {
      JoinKeepsFormIff(View(f), f.store[f.len..n]);
      assert View(f) + f.store[f.len..n] == f.store[..n];
    }
  }

  /** Whether a message leaves a tidy store behind; only a rollback can fail to. */
  predicate TidyMessage(s: Slice, limit: int, env: Env, input: string) {
    TidyRun(Started(s, input, env), Compactor(limit), env)
  }

  predicate TidyRun(started: Slice, compact: Slice -> Slice, env: Env)
    requires started.len >= 1
  {
    TidyEnd(Converse(started, compact, env, 0, NO_USAGE), started.len - 1)
  }

  predicate TidyEnd(r: LoopResult, n: nat) {
    r.outcome == Failed && n <= |r.messages.store| ==> Tidy(r.messages, n)
  }

  lemma FinishFormIff(r: LoopResult, n: nat)
    requires WellFormed(View(r.messages)) && n >= 1
    ensures WellFormed(View(Finish(r, n).messages)) <==> TidyEnd(r, n)
  {
    if r.outcome == Failed && n <= |r.messages.store| {
      TidyIff(r.messages, n);
    }
  }

  lemma ConversedFormIff(started: Slice, compact: Slice -> Slice, env: Env)
    requires WellFormed(View(started)) && started.len >= 2 && KeepsForm(compact)
    ensures WellFormed(View(Conversed(started, compact, env).messages)) <==>
      TidyRun(started, compact, env)
  {
    ConverseKeepsForm(started, compact, env, 0, NO_USAGE);
    FinishFormIff(Converse(started, compact, env, 0, NO_USAGE), started.len - 1);
  }

  /** For every limit, a message keeps the history well formed if and only if a rollback,
      when there is one, leaves a tidy store. */
  lemma MessageFormIff(s: Slice, limit: int, env: Env, input: string)
    requires WellFormed(View(s))
    ensures WellFormed(View(Handle(s, limit, env, input).messages)) <==> TidyMessage(s, limit, env, input)
  {
    StartedWellFormed(s, input, env);
    CompactorKeepsForm(limit);
    ConversedFormIff(Started(s, input, env), Compactor(limit), env);
  }

  // ---------------------------------------------------------------- whole conversations

  /** The history was well formed all along. */
  predicate AlwaysWellFormed(s: Slice, limit: int, steps: seq<Step>) {
    && WellFormed(View(RunChat(s, limit, steps)))
    && (steps != [] ==> AlwaysWellFormed(s, limit, steps[..|steps| - 1]))
  }

  predicate AllTidy(s: Slice, limit: int, steps: seq<Step>) {
    steps == [] ||
    var n := |steps| - 1;
    && AllTidy(s, limit, steps[..n])
    && (steps[n].Said? ==> TidyMessage(RunChat(s, limit, steps[..n]), limit, steps[n].env, steps[n].input))
  }

  /** Over every conversation, for every limit, the history stays well formed if and only
      if every rollback leaves a tidy store. */
  lemma {:induction false} ConversationFormIff(s: Slice, limit: int, steps: seq<Step>)
    requires WellFormed(View(s))
    ensures AlwaysWellFormed(s, limit, steps) <==> AllTidy(s, limit, steps)
  {
    if steps != [] {
      var n := |steps| - 1;
      ConversationFormIff(s, limit, steps[..n]);
      if AlwaysWellFormed(s, limit, steps[..n]) {
        StepFormIff(RunChat(s, limit, steps[..n]), limit, steps[n]);
      }
    }
  }

  lemma StepFormIff(s: Slice, limit: int, step: Step)
    requires WellFormed(View(s))
    ensures WellFormed(View(NextChat(s, limit, step))) <==>
      (step.Said? ==> TidyMessage(s, limit, step.env, step.input))
  {
    match step
    case Said(input, env) =>
      MessageFormIff(s, limit, env, input);
    case Reset =>
      assert View(ResetSlice(s)) == [View(s)[0]];
  }

  /** No compaction, rollback or reset ever loses the system prompt. */
  lemma {:induction false} SystemPromptStays(s: Slice, limit: int, steps: seq<Step>)
    requires s.len > 0 && s.store[0].role.System?
    ensures var r := RunChat(s, limit, steps); r.len > 0 && r.store[0] == s.store[0]
  {
    if steps != [] {
      var n := |steps| - 1;
      SystemPromptStays(s, limit, steps[..n]);
      var before := RunChat(s, limit, steps[..n]);
      match steps[n]
      case Said(input, env) =>
        MessageKeepsPrompt(before, limit, env, input);
      case Reset =>
    }
  }

  /** A reset leaves the system prompt and nothing else, whatever was said before. */
  lemma ResetLeavesPrompt(s: Slice, limit: int, steps: seq<Step>)
    requires s.len > 0 && s.store[0].role.System?
    ensures View(RunChat(s, limit, steps + [Reset])) == [View(s)[0]]
  {
    SystemPromptStays(s, limit, steps);
    assert (steps + [Reset])[..|steps|] == steps;
  }

  lemma MessageKeepsPrompt(s: Slice, limit: int, env: Env, input: string)
    requires s.len > 0
    ensures var r := Handle(s, limit, env, input).messages; r.len > 0 && r.store[0] == s.store[0]
  {
    var started := Started(s, input, env);
    var first := [s.store[0]];
    TrimKeepsFirst(View(s) + [UserTurn(input)]);
    assert (View(s) + [UserTurn(input)])[0] == View(s)[0];
    CompactorKeepsPart(limit, first);
    ConverseKeepsPart(started, Compactor(limit), env, 0, NO_USAGE, first);
    FinishKeepsFirst(Converse(started, Compactor(limit), env, 0, NO_USAGE), started.len - 1, s.store[0]);
  }

  lemma FinishKeepsFirst(r: LoopResult, n: nat, m: Message)
    requires n >= 1 && [m] <= View(r.messages)
    ensures var h := Finish(r, n).messages; h.len > 0 && h.store[0] == m
  {
    assert r.messages.store[0] == View(r.messages)[0] == [m][0];
  }

  lemma TrimKeepsFirst(ms: seq<Message>)
    requires |ms| >= 2
    ensures |Trim(ms)| >= 2 && Trim(ms)[0] == ms[0]
  {
  }

  // ---------------------------------------------------------------- compaction in the failing round

  /** No round before `k` had to compact. */
  predicate QuietTo(s: Slice, limit: int, env: Env, k: nat)
    requires Reaches(env, k)
  {
    k == 0 || (QuietTo(s, limit, env, k - 1) && !CompactsAt(s, limit, env, k - 1))
  }

  function CompactionAt(s: Slice, limit: int, env: Env, k: nat): (c: Compaction)
    requires Reaches(env, k)
  {
    Compact(View(SliceAt(s, Compactor(limit), env, k)), limit)
  }

  predicate CompactsAt(s: Slice, limit: int, env: Env, k: nat)
    requires Reaches(env, k)
  {
    CompactionAt(s, limit, env, k) != Same
  }

  /** What the failing round does to the history: nothing if it is cancelled. */
  function LastCompaction(s: Slice, limit: int, env: Env, k: nat): (c: Compaction)
    requires Reaches(env, k)
  {
    if env.cancelled(k) then Same else CompactionAt(s, limit, env, k)
  }

  lemma QuietRound(s: Slice, limit: int, ms: seq<Message>, c: Choice, k: nat, env: Env)
    requires ms <= View(s) && Compact(View(s), limit) == Same
    ensures ms <= View(ToolRound(Compactor(limit)(s), c, k, env))
  {
    ToolRoundView(s, c, k, env);
  }

  lemma {:induction false} QuietToExtends(s: Slice, limit: int, env: Env, k: nat)
    requires Reaches(env, k) && QuietTo(s, limit, env, k)
    ensures View(s) <= View(SliceAt(s, Compactor(limit), env, k))
  {
    if k > 0 {
      QuietToExtends(s, limit, env, k - 1);
      QuietStep(s, limit, env, k, View(s));
    }
  }

  lemma QuietStep(s: Slice, limit: int, env: Env, k: nat, ms: seq<Message>)
    requires k > 0 && Reaches(env, k) && !CompactsAt(s, limit, env, k - 1)
    requires ms <= View(SliceAt(s, Compactor(limit), env, k - 1))
    ensures ms <= View(SliceAt(s, Compactor(limit), env, k))
  {
    QuietRound(SliceAt(s, Compactor(limit), env, k - 1), limit, ms, Asked(env, k - 1), k - 1, env);
  }

  lemma ResliceUnchanged(h: Handled, f: Slice, last: Slice, ms: seq<Message>)
    requires ms != [] && ms <= View(last) && f.store == last.store && ResliceOf(h, f.store, |ms| - 1)
    ensures Exactly(h, ms)
  {
    var n := |ms| - 1;
    assert last.store[..n] == View(last)[..n] == ms[..n];
  }

  /** If no round before the failing one compacts and the failing one builds no new slice,
      the rollback is exact. */
  lemma QuietFailureIsExact(s: Slice, limit: int, env: Env, input: string, k: nat)
    requires Reaches(env, k) && FailsAt(env, k)
    requires QuietTo(Started(s, input, env), limit, env, k)
    requires !LastCompaction(Started(s, input, env), limit, env, k).Fresh?
    ensures Exactly(Handle(s, limit, env, input), View(Started(s, input, env)))
  {
    var started := Started(s, input, env);
    HandleFails(s, limit, env, input, k);
    QuietToExtends(started, limit, env, k);
    FailedStore(started, limit, env, k);
    ResliceUnchanged(Handle(s, limit, env, input), FailedSlice(started, Compactor(limit), env, k),
                     SliceAt(started, Compactor(limit), env, k), View(started));
  }

  /** Re-slicing a new slice: its front, well formed unless a tool answer follows, or a
      panic when it is too short. */
  predicate FrontOf(h: Handled, kept: seq<Message>, n: nat) {
    if n <= |kept| then
      && h.RolledBack? && View(h.messages) == kept[..n]
      && (WellFormed(View(h.messages)) <==> n == |kept| || !kept[n].role.Tool?)
    else h.Panicked? && View(h.messages) == kept
  }

  lemma ResliceFresh(h: Handled, f: Slice, kept: seq<Message>, n: nat)
    requires n >= 1 && WellFormed(kept) && f == Exact(kept)
    requires ResliceOf(h, f.store, n) && (h.Panicked? ==> h.messages == f)
    ensures FrontOf(h, kept, n)
  {
    if n <= |kept| {
      PrefixKeepsFormIff(kept, n);
    }
  }

  /** If the failing round builds a new slice, the rollback cuts that one, whatever
      happened before. */
  lemma FreshFailureCutsKept(s: Slice, limit: int, env: Env, input: string, k: nat)
    requires WellFormed(View(s)) && Reaches(env, k) && FailsAt(env, k)
    requires LastCompaction(Started(s, input, env), limit, env, k).Fresh?
    ensures var started := Started(s, input, env);
      FrontOf(Handle(s, limit, env, input), LastCompaction(started, limit, env, k).kept, started.len - 1)
  {
    var started := Started(s, input, env);
    StartedWellFormed(s, input, env);
    HandleFails(s, limit, env, input, k);
    FailedStore(started, limit, env, k);
    FreshWellFormed(started, limit, env, k);
    ResliceFresh(Handle(s, limit, env, input), FailedSlice(started, Compactor(limit), env, k),
                 LastCompaction(started, limit, env, k).kept, started.len - 1);
  }

  lemma QuietToGrows(s: Slice, limit: int, env: Env, k: nat)
    requires Reaches(env, k) && QuietTo(s, limit, env, k)
    ensures |View(s)| <= |View(SliceAt(s, Compactor(limit), env, k))|
  {
    QuietToExtends(s, limit, env, k);
  }

  lemma FailedStore(s: Slice, limit: int, env: Env, k: nat)
    requires Reaches(env, k)
    ensures var f := FailedSlice(s, Compactor(limit), env, k);
      var c := LastCompaction(s, limit, env, k);
      if c.Fresh? then f == Exact(c.kept) else f.store == SliceAt(s, Compactor(limit), env, k).store
  {
    CompactorIsCompactSlice(SliceAt(s, Compactor(limit), env, k), limit);
  }

  lemma FreshWellFormed(s: Slice, limit: int, env: Env, k: nat)
    requires WellFormed(View(s)) && Reaches(env, k)
    ensures var c := CompactionAt(s, limit, env, k); c.Fresh? ==> WellFormed(c.kept)
  {
    CompactorKeepsForm(limit);
    SliceAtWellFormed(s, Compactor(limit), env, k);
    CompactionKeepsForm(View(SliceAt(s, Compactor(limit), env, k)), limit);
  }

  // ---------------------------------------------------------------- when the rollback is exact

  /** `m` stands at position `p` and nowhere else. */
  predicate OnlyAt(ms: seq<Message>, p: nat, m: Message) {
    p < |ms| && ms[p] == m && forall i :: 0 <= i < |ms| && i != p ==> ms[i] != m
  }

  /** No tool round of the run adds `m`. */
  ghost predicate Foreign(m: Message, env: Env) {
    && m != ZERO_MESSAGE
    && forall k :: GoesOn(env, k) ==> NotIn(m, Asked(env, k), k, env)
  }

  predicate NotIn(m: Message, c: Choice, k: nat, env: Env) {
    && m != Caller(c)
    && forall j :: 0 <= j < |c.toolCalls| ==> m != ToolAnswer(c.toolCalls[j], env.tool(k, j))
  }

  /** `m` is gone from the history and from its place in the store. */
  predicate Lost(s: Slice, p: nat, m: Message) {
    m !in View(s) && (p < |s.store| ==> s.store[p] != m)
  }

  lemma AppendLoses(s: Slice, x: Message, spare: nat -> nat, p: nat, m: Message)
    requires m !in View(s) && m != x && m != ZERO_MESSAGE && (Lost(s, p, m) || s.len == p)
    ensures Lost(Append(s, x, spare), p, m)
  {
  }

  lemma {:induction false} AnswersLose(s: Slice, calls: seq<ToolCall>, j: nat, k: nat, env: Env, p: nat, m: Message)
    requires j <= |calls| && Lost(s, p, m) && m != ZERO_MESSAGE
    requires forall i :: 0 <= i < |calls| ==> m != ToolAnswer(calls[i], env.tool(k, i))
    ensures Lost(AppendAnswers(s, calls, j, k, env), p, m)
    decreases |calls| - j
  {
    if j < |calls| {
      var x := ToolAnswer(calls[j], env.tool(k, j));
      AppendLoses(s, x, env.spare, p, m);
      AnswersLose(Append(s, x, env.spare), calls, j + 1, k, env, p, m);
    }
  }

  lemma ToolRoundLoses(s: Slice, c: Choice, k: nat, env: Env, p: nat, m: Message)
    requires m !in View(s) && NotIn(m, c, k, env) && m != ZERO_MESSAGE && (Lost(s, p, m) || s.len == p)
    ensures Lost(ToolRound(s, c, k, env), p, m)
  {
    AppendLoses(s, Caller(c), env.spare, p, m);
    AnswersLose(Append(s, Caller(c), env.spare), c.toolCalls, 0, k, env, p, m);
  }

  lemma CompactedIsPart(ms: seq<Message>, limit: int, m: Message)
    requires m in Compacted(ms, limit)
    ensures m in ms
  {
    if Compact(ms, limit).Fresh? {
      var cut := FreshShape(ms, limit);
    }
  }

  lemma CompactionKeepsLost(s: Slice, limit: int, p: nat, m: Message)
    requires Lost(s, p, m)
    ensures Lost(CompactSlice(s, limit), p, m)
  {
    CompactSliceView(s, limit);
    if m in Compacted(View(s), limit) {
      CompactedIsPart(View(s), limit, m);
    }
    if Compact(View(s), limit).Fresh? {
      assert CompactSlice(s, limit).store == View(CompactSlice(s, limit));
    }
  }

  /** Compaction drops the first message behind the sticky part. */
  lemma CompactionDrops(s: Slice, limit: int, p: nat, m: Message)
    requires OnlyAt(View(s), p, m) && p == Sticky(View(s)) && Compact(View(s), limit) != Same
    ensures var b := CompactSlice(s, limit);
      m !in View(b) && (b.len == p || Lost(b, p, m)) && (Compact(View(s), limit).Fresh? ==> Lost(b, p, m))
  {
    var ms := View(s);
    CompactSliceView(s, limit);
    match Compact(ms, limit)
    case Prefix(n) =>
      PrefixIsSticky(ms, limit);
    case Fresh(kept) =>
      FreshDrops(ms, limit, p, m);
      assert CompactSlice(s, limit).store == kept;
  }

  lemma FreshDrops(ms: seq<Message>, limit: int, p: nat, m: Message)
    requires OnlyAt(ms, p, m) && p == Sticky(ms) && Compact(ms, limit).Fresh?
    ensures m !in Compact(ms, limit).kept
  {
    var cut := FreshShape(ms, limit);
    GapDrops(ms, cut, p, m, Compact(ms, limit).kept);
  }

  lemma GapDrops(ms: seq<Message>, cut: nat, p: nat, m: Message, kept: seq<Message>)
    requires OnlyAt(ms, p, m) && p < cut <= |ms| && kept == ms[..p] + ms[cut..]
    ensures m !in kept
  {
    assert forall i :: 0 <= i < |kept| ==> kept[i] == if i < p then ms[i] else ms[cut + (i - p)];
  }

  lemma ToolRoundKeepsOnly(s: Slice, c: Choice, k: nat, env: Env, p: nat, m: Message)
    requires OnlyAt(View(s), p, m) && NotIn(m, c, k, env)
    ensures OnlyAt(View(ToolRound(s, c, k, env)), p, m)
  {
    ToolRoundView(s, c, k, env);
  }

  /** Where the first message behind the sticky part is, round by round. */
  predicate Follows(r: Slice, quiet: bool, p: nat, m: Message) {
    if quiet then OnlyAt(View(r), p, m) && Sticky(View(r)) == p else Lost(r, p, m)
  }

  lemma FollowRound(s: Slice, limit: int, c: Choice, k: nat, env: Env, quiet: bool, p: nat, m: Message)
    requires Follows(s, quiet, p, m) && NotIn(m, c, k, env) && m != ZERO_MESSAGE
    requires quiet ==> |View(s)| >= 2
    ensures Follows(ToolRound(CompactSlice(s, limit), c, k, env), quiet && Compact(View(s), limit) == Same, p, m)
  {
    if quiet && Compact(View(s), limit) == Same {
      ToolRoundKeepsOnly(s, c, k, env, p, m);
      ToolRoundView(s, c, k, env);
    } else {
      if quiet {
        CompactionDrops(s, limit, p, m);
      } else {
        CompactionKeepsLost(s, limit, p, m);
      }
      ToolRoundLoses(CompactSlice(s, limit), c, k, env, p, m);
    }
  }

  lemma {:induction false} FollowRounds(s: Slice, limit: int, env: Env, k: nat, p: nat, m: Message)
    requires Reaches(env, k) && |View(s)| >= 2 && Follows(s, true, p, m) && Foreign(m, env)
    ensures Follows(SliceAt(s, Compactor(limit), env, k), QuietTo(s, limit, env, k), p, m)
  {
    if k > 0 {
      FollowRounds(s, limit, env, k - 1, p, m);
      FollowNext(s, limit, env, k - 1, p, m);
    }
  }

  lemma FollowNext(s: Slice, limit: int, env: Env, k: nat, p: nat, m: Message)
    requires Reaches(env, k + 1) && |View(s)| >= 2 && Foreign(m, env)
    requires Follows(SliceAt(s, Compactor(limit), env, k), QuietTo(s, limit, env, k), p, m)
    ensures Follows(SliceAt(s, Compactor(limit), env, k + 1), QuietTo(s, limit, env, k + 1), p, m)
  {
    if QuietTo(s, limit, env, k) {
      QuietToGrows(s, limit, env, k);
    }
    var before := SliceAt(s, Compactor(limit), env, k);
    NextSlice(s, Compactor(limit), env, k);
    CompactorIsCompactSlice(before, limit);
    FollowRound(before, limit, Asked(env, k), k, env, QuietTo(s, limit, env, k), p, m);
  }

  /** Compaction in an earlier round, or a new slice in the failing one, loses the message. */
  lemma FailureLoses(s: Slice, limit: int, env: Env, k: nat, p: nat, m: Message)
    requires Reaches(env, k) && |View(s)| >= 2 && Follows(s, true, p, m) && Foreign(m, env)
    requires !QuietTo(s, limit, env, k) || LastCompaction(s, limit, env, k).Fresh?
    ensures Lost(FailedSlice(s, Compactor(limit), env, k), p, m)
  {
    var last := SliceAt(s, Compactor(limit), env, k);
    FollowRounds(s, limit, env, k, p, m);
    CompactorIsCompactSlice(last, limit);
    if QuietTo(s, limit, env, k) {
      CompactionDrops(last, limit, p, m);
    } else {
      CompactionKeepsLost(last, limit, p, m);
    }
  }

  lemma LostIsNotExact(h: Handled, f: Slice, ms: seq<Message>, p: nat)
    requires p < |ms| - 1 && Lost(f, p, ms[p]) && ResliceOf(h, f.store, |ms| - 1)
    ensures !Exactly(h, ms)
  {
    var n := |ms| - 1;
    if n <= |f.store| {
      assert f.store[..n][p] == f.store[p] && ms[..n][p] == ms[p];
    }
  }

  /** The first message behind the sticky part is not repeated and no tool round adds it.
      Nothing is asked of a history that is all sticky. */
  ghost predicate Recognizable(ms: seq<Message>, env: Env) {
    ms != [] && (|ms| - 1 > Sticky(ms) ==>
      OnlyAt(ms, Sticky(ms), ms[Sticky(ms)]) && Foreign(ms[Sticky(ms)], env))
  }

  /** "The user message is rolled back", exactly: for every limit and every run that fails
      in round `k`, the rollback restores the trimmed history without the new turn if and
      only if that history is all sticky, or no earlier round compacted and the failing
      round built no new slice. */
  lemma RollbackExactIff(s: Slice, limit: int, env: Env, input: string, k: nat)
    requires WellFormed(View(s)) && Reaches(env, k) && FailsAt(env, k)
    requires Recognizable(View(Started(s, input, env)), env)
    ensures var started := Started(s, input, env);
      var ms := View(started);
      Exactly(Handle(s, limit, env, input), ms) <==>
        || |ms| - 1 <= Sticky(ms)
        || (QuietTo(started, limit, env, k) && !LastCompaction(started, limit, env, k).Fresh?)
  {
    var started := Started(s, input, env);
    var ms := View(started);
    if |ms| - 1 <= Sticky(ms) {
      RunFails(started, Compactor(limit), env, k);
      ShortHistoryRollsBack(s, limit, env, input);
    } else if QuietTo(started, limit, env, k) && !LastCompaction(started, limit, env, k).Fresh? {
      QuietFailureIsExact(s, limit, env, input, k);
    } else {
      LossIsNotExact(s, limit, env, input, k, Sticky(ms));
    }
  }

  lemma LossIsNotExact(s: Slice, limit: int, env: Env, input: string, k: nat, p: nat)
    requires Reaches(env, k) && FailsAt(env, k)
    requires var ms := View(Started(s, input, env));
      p < |ms| - 1 && p == Sticky(ms) && OnlyAt(ms, p, ms[p]) && Foreign(ms[p], env)
    requires var started := Started(s, input, env);
      !QuietTo(started, limit, env, k) || LastCompaction(started, limit, env, k).Fresh?
    ensures !Exactly(Handle(s, limit, env, input), View(Started(s, input, env)))
  {
    var started := Started(s, input, env);
    HandleFails(s, limit, env, input, k);
    FailureLoses(started, limit, env, k, p, View(started)[p]);
    LostIsNotExact(Handle(s, limit, env, input), FailedSlice(started, Compactor(limit), env, k), View(started), p);
  }

  // ---------------------------------------------------------------- compaction before the failing round

  /** What a tool round adds. */
  function Added(c: Choice, k: nat, env: Env): (ms: seq<Message>) {
    [Caller(c)] + Answers(c.toolCalls, 0, k, env)
  }

  /** Appending writes at the length and leaves what lies behind. */
  predicate TailKept(a: Slice, b: Slice) {
    |a.store| <= |b.store| && forall i :: b.len <= i < |a.store| ==> b.store[i] == a.store[i]
  }

  lemma {:induction false} AnswersKeepTail(s: Slice, calls: seq<ToolCall>, j: nat, k: nat, env: Env)
    requires j <= |calls|
    ensures TailKept(s, AppendAnswers(s, calls, j, k, env))
    ensures s.len <= AppendAnswers(s, calls, j, k, env).len
    decreases |calls| - j
  {
    if j < |calls| {
      AnswersKeepTail(Append(s, ToolAnswer(calls[j], env.tool(k, j)), env.spare), calls, j + 1, k, env);
    }
  }

  lemma ToolRoundKeepsTail(s: Slice, c: Choice, k: nat, env: Env)
    ensures TailKept(s, ToolRound(s, c, k, env))
  {
    AnswersKeepTail(Append(s, Caller(c), env.spare), c.toolCalls, 0, k, env);
  }

  /** Nothing but zero values behind the length. */
  predicate ZeroTail(s: Slice) {
    forall i :: s.len <= i < |s.store| ==> s.store[i] == ZERO_MESSAGE
  }

  lemma {:induction false} AnswersKeepZeroTail(s: Slice, calls: seq<ToolCall>, j: nat, k: nat, env: Env)
    requires j <= |calls| && ZeroTail(s)
    ensures ZeroTail(AppendAnswers(s, calls, j, k, env))
    decreases |calls| - j
  {
    if j < |calls| {
      AnswersKeepZeroTail(Append(s, ToolAnswer(calls[j], env.tool(k, j)), env.spare), calls, j + 1, k, env);
    }
  }

  lemma ToolRoundKeepsZeroTail(s: Slice, c: Choice, k: nat, env: Env)
    requires ZeroTail(s)
    ensures ZeroTail(ToolRound(s, c, k, env))
  {
    AnswersKeepZeroTail(Append(s, Caller(c), env.spare), c.toolCalls, 0, k, env);
  }

  lemma SuffixIsTurnsIff(h: seq<Message>, q: nat)
    requires WellFormed(h) && 1 <= q < |h|
    ensures Turns(h[q..]) <==> !h[q].role.Tool?
  {
    assert h[1..][q - 1..] == h[q..] && h[1..][q - 1] == h[q];
    if h[q].role.Tool? {
      assert h[q..][0] == h[q];
    } else {
      TurnsSplit(h[1..], q - 1);
    }
  }

  /** `added` stands over the messages of `ms` from `p` on; the others are in place. */
  predicate Overwritten(r: Slice, ms: seq<Message>, p: nat, added: seq<Message>) {
    && p <= |ms| <= |r.store| && View(r) == ms[..p] + added
    && forall i :: r.len <= i < |ms| ==> r.store[i] == ms[i]
  }

  /** A call and its answers. */
  predicate CallAndAnswers(added: seq<Message>) {
    added != [] && forall i :: 0 <= i < |added| ==> (added[i].role.Tool? <==> i > 0)
  }

  /** The history that comes back when `added` was written over `ms` from `p` on: the
      messages in front, the new ones, and the old ones behind, cut to one less than `ms`. */
  predicate BroughtBack(h: Handled, ms: seq<Message>, p: nat, added: seq<Message>) {
    var n, q := |ms| - 1, p + |added|;
    && 0 <= p <= n && h.RolledBack?
    && View(h.messages) == (if q <= n then ms[..p] + added + ms[q..n] else (ms[..p] + added)[..n])
    && (WellFormed(View(h.messages)) <==> q == n || (q < n && !ms[q].role.Tool?))
  }

  lemma ResliceOverwritten(h: Handled, r: Slice, ms: seq<Message>, p: nat, added: seq<Message>)
    requires 1 <= p < |ms| - 1 && CallAndAnswers(added) && Overwritten(r, ms, p, added)
    requires WellFormed(ms[..|ms| - 1]) && WellFormed(View(r))
    requires ResliceOf(h, r.store, |ms| - 1)
    ensures BroughtBack(h, ms, p, added)
  {
    OverwrittenFormIff(r, ms, p, added);
    OverwrittenFront(r, ms, p, added, |ms| - 1);
  }

  lemma OverwrittenFront(r: Slice, ms: seq<Message>, p: nat, added: seq<Message>, n: nat)
    requires p <= n <= |ms| && Overwritten(r, ms, p, added)
    ensures var q := p + |added|;
      r.store[..n] == if q <= n then ms[..p] + added + ms[q..n] else (ms[..p] + added)[..n]
  {
    var q := p + |added|;
    if q <= n {
      assert r.store[..n] == r.store[..q] + r.store[q..n];
      assert r.store[q..n] == ms[q..n];
    } else {
      assert r.store[..n] == View(r)[..n];
    }
  }

  lemma OverwrittenFormIff(r: Slice, ms: seq<Message>, p: nat, added: seq<Message>)
    requires 1 <= p < |ms| - 1 && CallAndAnswers(added) && Overwritten(r, ms, p, added)
    requires WellFormed(ms[..|ms| - 1]) && WellFormed(View(r))
    ensures var n, q := |ms| - 1, p + |added|;
      WellFormed(r.store[..n]) <==> q == n || (q < n && !ms[q].role.Tool?)
  {
    var n := |ms| - 1;
    TidyIff(r, n);
    if r.len < n {
      TailIsTidyIff(r, ms, n);
    } else if r.len > n {
      assert r.store[n] == View(r)[n] == added[n - p];
    }
  }

  lemma TailIsTidyIff(r: Slice, ms: seq<Message>, n: nat)
    requires 1 <= r.len < n <= |ms| && n <= |r.store| && WellFormed(ms[..n])
    requires forall i :: r.len <= i < n ==> r.store[i] == ms[i]
    ensures Tidy(r, n) <==> !ms[r.len].role.Tool?
  {
    assert r.store[r.len..n] == ms[..n][r.len..];
    SuffixIsTurnsIff(ms[..n], r.len);
  }

  lemma AddedIsCallAndAnswers(c: Choice, k: nat, env: Env)
    ensures CallAndAnswers(Added(c, k, env))
  {
  }

  lemma PrefixRound(last: Slice, p: nat, ms: seq<Message>, c: Choice, k: nat, env: Env)
    requires p <= |ms| && ms <= View(last)
    ensures Overwritten(ToolRound(RawSlice(last.store, p), c, k, env), ms, p, Added(c, k, env))
  {
    ToolRoundView(RawSlice(last.store, p), c, k, env);
    ToolRoundKeepsTail(RawSlice(last.store, p), c, k, env);
  }

  /** The end of a run that fails in round `k` without building a new slice there. */
  predicate FailsInPlace(s: Slice, compact: Slice -> Slice, env: Env, k: nat) {
    && Reaches(env, k) && FailsAt(env, k)
    && FailedSlice(s, compact, env, k).store == SliceAt(s, compact, env, k).store
  }

  lemma ResliceOfLast(s: Slice, compact: Slice -> Slice, env: Env, k: nat)
    requires s.len >= 1 && FailsInPlace(s, compact, env, k)
    ensures ResliceOf(Conversed(s, compact, env), SliceAt(s, compact, env, k).store, s.len - 1)
  {
    RunFails(s, compact, env, k);
  }

  /** The tool round before the failing round. */
  function LastTools(s: Slice, compact: Slice -> Slice, env: Env, k: nat): (r: Slice)
    requires Reaches(env, k)
  {
    ToolRound(compact(SliceAt(s, compact, env, k)), Asked(env, k), k, env)
  }

  lemma ResliceOfTools(s: Slice, compact: Slice -> Slice, env: Env, k: nat)
    requires s.len >= 1 && Reaches(env, k) && FailsInPlace(s, compact, env, k + 1)
    ensures ResliceOf(Conversed(s, compact, env), LastTools(s, compact, env, k).store, s.len - 1)
  {
    ResliceOfLast(s, compact, env, k + 1);
    NextSlice(s, compact, env, k);
  }

  lemma ToolsWellFormed(s: Slice, compact: Slice -> Slice, env: Env, k: nat)
    requires KeepsForm(compact) && WellFormed(View(s)) && Reaches(env, k + 1)
    ensures WellFormed(View(LastTools(s, compact, env, k)))
  {
    SliceAtWellFormed(s, compact, env, k + 1);
    NextSlice(s, compact, env, k);
  }

  /** No round shortened the history until the one before the failing one cut it, in place,
      to its first `p` messages: the tool round then overwrites the ones behind, and the
      rollback brings back the rest. */
  lemma FailureAfterPrefix(s: Slice, compact: Slice -> Slice, env: Env, k: nat, p: nat)
    requires WellFormed(View(s)) && IsPlain(View(s)[s.len - 1]) && 1 <= p < s.len - 1
    requires KeepsForm(compact) && FailsInPlace(s, compact, env, k + 1)
    requires View(s) <= View(SliceAt(s, compact, env, k))
    requires compact(SliceAt(s, compact, env, k)) == RawSlice(SliceAt(s, compact, env, k).store, p)
    ensures BroughtBack(Conversed(s, compact, env), View(s), p, Added(Asked(env, k), k, env))
  {
    ResliceOfTools(s, compact, env, k);
    ToolsWellFormed(s, compact, env, k);
    ToolsOverwrite(s, compact, env, k, p);
    OverwrittenEnd(Conversed(s, compact, env), LastTools(s, compact, env, k), View(s), p, Asked(env, k), k, env);
  }

  lemma OverwrittenEnd(h: Handled, r: Slice, ms: seq<Message>, p: nat, c: Choice, k: nat, env: Env)
    requires WellFormed(ms) && IsPlain(ms[|ms| - 1]) && 1 <= p < |ms| - 1
    requires WellFormed(View(r)) && Overwritten(r, ms, p, Added(c, k, env)) && ResliceOf(h, r.store, |ms| - 1)
    ensures BroughtBack(h, ms, p, Added(c, k, env))
  {
    DropLastTurn(ms);
    AddedIsCallAndAnswers(c, k, env);
    ResliceOverwritten(h, r, ms, p, Added(c, k, env));
  }

  lemma ToolsOverwrite(s: Slice, compact: Slice -> Slice, env: Env, k: nat, p: nat)
    requires Reaches(env, k) && p <= s.len && View(s) <= View(SliceAt(s, compact, env, k))
    requires compact(SliceAt(s, compact, env, k)) == RawSlice(SliceAt(s, compact, env, k).store, p)
    ensures Overwritten(LastTools(s, compact, env, k), View(s), p, Added(Asked(env, k), k, env))
  {
    PrefixRound(SliceAt(s, compact, env, k), p, View(s), Asked(env, k), k, env);
  }

  /** A new store with `kept` and `added`, and zero values behind. */
  predicate Rebuilt(r: Slice, kept: seq<Message>, added: seq<Message>) {
    kept != [] && View(r) == kept + added && ZeroTail(r)
  }

  function Zeros(n: nat): (ms: seq<Message>) {
    seq(n, _ => ZERO_MESSAGE)
  }

  /** The front of the new slice and of the tool round behind it; beyond that, zero messages
      or a panic. */
  predicate FrontOfBoth(h: Handled, n: nat, kept: seq<Message>, added: seq<Message>) {
    var total := |kept| + |added|;
    && (n <= total ==> h.RolledBack? && View(h.messages) == (kept + added)[..n])
    && (n > total ==> h.Panicked? || (h.RolledBack? && View(h.messages) == kept + added + Zeros(n - total)))
    && (h.RolledBack? ==>
          (WellFormed(View(h.messages)) <==> n == total || n == |kept| || (n < |kept| && !kept[n].role.Tool?)))
  }

  lemma ResliceRebuilt(h: Handled, r: Slice, n: nat, kept: seq<Message>, added: seq<Message>)
    requires n >= 1 && CallAndAnswers(added) && Rebuilt(r, kept, added) && WellFormed(View(r))
    requires ResliceOf(h, r.store, n)
    ensures FrontOfBoth(h, n, kept, added)
  {
    if n <= |r.store| {
      RebuiltFormIff(r, n, kept, added);
      RebuiltFront(r, n, kept, added);
    }
  }

  lemma RebuiltFront(r: Slice, n: nat, kept: seq<Message>, added: seq<Message>)
    requires n <= |r.store| && Rebuilt(r, kept, added)
    ensures var total := |kept| + |added|;
      r.store[..n] == if n <= total then (kept + added)[..n] else kept + added + Zeros(n - total)
  {
    if n <= r.len {
      assert r.store[..n] == View(r)[..n];
    } else {
      assert r.store[..n] == View(r) + r.store[r.len..n];
      assert r.store[r.len..n] == Zeros(n - r.len);
    }
  }

  lemma RebuiltFormIff(r: Slice, n: nat, kept: seq<Message>, added: seq<Message>)
    requires 1 <= n <= |r.store| && CallAndAnswers(added) && Rebuilt(r, kept, added) && WellFormed(View(r))
    ensures WellFormed(r.store[..n]) <==>
      n == |kept| + |added| || n == |kept| || (n < |kept| && !kept[n].role.Tool?)
  {
    TidyIff(r, n);
    if n < r.len {
      assert r.store[n] == View(r)[n];
    } else if r.len < n {
      assert r.store[r.len..n][0] == ZERO_MESSAGE;
    }
  }

  lemma FreshRound(kept: seq<Message>, c: Choice, k: nat, env: Env)
    requires kept != []
    ensures Rebuilt(ToolRound(Exact(kept), c, k, env), kept, Added(c, k, env))
  {
    ToolRoundView(Exact(kept), c, k, env);
    ToolRoundKeepsZeroTail(Exact(kept), c, k, env);
  }

  /** The round before the failing one built a new slice, whatever happened before: the
      rollback keeps the front of that slice and of the tool round behind it. */
  lemma FailureAfterFresh(s: Slice, compact: Slice -> Slice, env: Env, k: nat, kept: seq<Message>)
    requires WellFormed(View(s)) && s.len >= 2 && kept != []
    requires KeepsForm(compact) && FailsInPlace(s, compact, env, k + 1)
    requires compact(SliceAt(s, compact, env, k)) == Exact(kept)
    ensures FrontOfBoth(Conversed(s, compact, env), s.len - 1, kept, Added(Asked(env, k), k, env))
  {
    ResliceOfTools(s, compact, env, k);
    ToolsWellFormed(s, compact, env, k);
    FreshRoundEnds(Conversed(s, compact, env), s.len - 1, kept, Asked(env, k), k, env);
  }

  lemma FreshRoundEnds(h: Handled, n: nat, kept: seq<Message>, c: Choice, k: nat, env: Env)
    requires n >= 1 && kept != []
    requires WellFormed(View(ToolRound(Exact(kept), c, k, env)))
    requires ResliceOf(h, ToolRound(Exact(kept), c, k, env).store, n)
    ensures FrontOfBoth(h, n, kept, Added(c, k, env))
  {
    FreshRound(kept, c, k, env);
    AddedIsCallAndAnswers(c, k, env);
    ResliceRebuilt(h, ToolRound(Exact(kept), c, k, env), n, kept, Added(c, k, env));
  }

  // ---------------------------------------------------------------- inputs

  /** A system prompt and empty turns of user and assistant in alternation. */
  function BareHistory(n: nat): (h: seq<Message>) {
    seq(n, i => if i == 0 then Message(System, "", "", "", []) else if i % 2 == 1 then UserTurn("") else FinalAnswer(""))
  }

  lemma BareHistoryShape(n: nat)
    requires n >= 2
    ensures var h := BareHistory(n);
      && |h| == n && WellFormed(h) && h[1].role.User? && (forall m :: m in h ==> Bare(m))
  {
    PlainTurns(BareHistory(n)[1..]);
  }

  /** The start of a message with an empty input on such a history. */
  predicate BareStart(started: Slice, n: nat) {
    View(started) == BareHistory(n) + [UserTurn("")] && WellFormed(View(started))
  }

  lemma StartsBare(n: nat, env: Env)
    requires 2 <= n <= MAX_HISTORY_MESSAGES
    ensures WellFormed(BareHistory(n)) && BareStart(Started(Exact(BareHistory(n)), "", env), n)
  {
    BareHistoryShape(n);
    StartedShort(BareHistory(n), "", env);
    StartedWellFormed(Exact(BareHistory(n)), "", env);
  }

  /** Short messages weigh four tokens each: behind the sticky two, as many of the newest
      stay as fit. */
  lemma BareCompaction(started: Slice, n: nat, limit: nat)
    requires BareStart(started, n) && n >= 2 && 12 <= limit < 4 * (n + 1)
    ensures var ms := View(started);
      && |ms| == n + 1 && Compactor(limit)(started) == Exact(ms[..2] + ms[|ms| - (limit - 8) / 4..])
  {
    var ms := View(started);
    BareHistoryShape(n);
    assert ms[1] == BareHistory(n)[1];
    PlainTokens(ms);
    PlainTokens(ms[..2]);
    BareCut(ms, limit - 8);
  }

  lemma BareCut(ms: seq<Message>, budget: nat)
    requires |ms| >= 2 && (forall m :: m in ms ==> Bare(m)) && 4 <= budget < 4 * (|ms| - 2)
    ensures Decide(ms, 2, budget) == Fresh(ms[..2] + ms[|ms| - budget / 4..])
  {
    PlainGroups(ms, 2);
    BareKeepFrom(Groups(ms, 2), budget);
  }

  /** A concrete loss of the rollback promise: five short messages, a limit of 17 tokens
      and one failing AI call make re-slicing panic. */
  lemma RollbackCanPanic(env: Env)
    requires !env.cancelled(0) && env.chat(0).ChatFailed?
    ensures WellFormed(BareHistory(5)) && Handle(Exact(BareHistory(5)), 17, env, "").Panicked?
  {
    StartsBare(5, env);
    var started := Started(Exact(BareHistory(5)), "", env);
    BareCompaction(started, 5, 17);
    RunFails(started, Compactor(17), env, 0);
  }

  /** The same history and failure with a limit of 21 tokens: one message is dropped, and the
      rolled-back history still ends in the new turn. */
  lemma RollbackKeepsTurn(env: Env)
    requires !env.cancelled(0) && env.chat(0).ChatFailed?
    ensures var r := Handle(Exact(BareHistory(5)), 21, env, "");
      WellFormed(BareHistory(5)) && r.RolledBack? && r.messages.len == 5 && r.messages.store[4] == UserTurn("")
  {
    StartsBare(5, env);
    BareRunKeepsTurn(Started(Exact(BareHistory(5)), "", env), env);
  }

  lemma BareRunKeepsTurn(started: Slice, env: Env)
    requires BareStart(started, 5) && !env.cancelled(0) && env.chat(0).ChatFailed?
    ensures var r := Conversed(started, Compactor(21), env);
      r.RolledBack? && r.messages.len == 5 && r.messages.store[4] == UserTurn("")
  {
    var ms := View(started);
    BareCompaction(started, 5, 21);
    RunFails(started, Compactor(21), env, 0);
    assert (ms[..2] + ms[3..])[4] == ms[5];
  }

  lemma {:induction false} BareKeepFrom(gs: seq<Group>, budget: nat)
    requires forall k :: 0 <= k < |gs| ==> gs[k].tokens == 4
    ensures GroupTokens(gs) == 4 * |gs|
    ensures KeepFrom(gs, budget) == if 4 * |gs| <= budget then 0 else |gs| - budget / 4
  {
    if gs != [] {
      BareKeepFrom(gs[1..], budget);
    }
  }

  predicate Bare(m: Message) {
    m.content == "" && m.reasoning == "" && m.toolCalls == []
  }

  lemma {:induction false} PlainTurns(ms: seq<Message>)
    requires forall m :: m in ms ==> IsPlain(m)
    ensures Turns(ms)
  {
    if ms != [] {
      assert ms[0] in ms;
      PlainTurns(ms[1..]);
    }
  }

  lemma {:induction false} PlainTokens(ms: seq<Message>)
    requires forall m :: m in ms ==> Bare(m)
    ensures Tokens(ms) == 4 * |ms|
  {
    if ms != [] {
      assert Bare(ms[0]);
      PlainTokens(ms[1..]);
    }
  }

  lemma {:induction false} PlainGroups(ms: seq<Message>, i: nat)
    requires i <= |ms| && forall m :: m in ms ==> Bare(m)
    ensures |Groups(ms, i)| == |ms| - i
    ensures forall k :: 0 <= k < |ms| - i ==> Groups(ms, i)[k] == Group(i + k, 4)
    decreases |ms| - i
  {
    if i < |ms| {
      assert Bare(ms[i]);
      PlainTokens(ms[i..i + 1]);
      PlainGroups(ms, i + 1);
    }
  }

  /** A limit below one message: compaction keeps the sticky part alone. */
  lemma TinyLimit(s: Slice, limit: int)
    requires s.len >= 2 && 0 < limit < PER_MESSAGE_OVERHEAD
    ensures Compactor(limit)(s) == RawSlice(s.store, Sticky(View(s)))
  {
    var ms := View(s);
    assert Tokens(ms) >= MessageTokens(ms[0]);
    assert Tokens(ms[..Sticky(ms)]) >= MessageTokens(ms[..Sticky(ms)][0]);
  }

  lemma StartedShort(h: seq<Message>, input: string, env: Env)
    requires |h| <= MAX_HISTORY_MESSAGES
    ensures View(Started(Exact(h), input, env)) == h + [UserTurn(input)]
  {
  }

  /** A concrete loss of the form: the history ends in a tool call and its answer, a limit
      of one token leaves the sticky part, the AI makes one tool call and the message fails
      in the next round. The rollback brings the old answer back without its call. */
  lemma RollbackLeavesOrphan(a: ToolCall, env: Env)
    requires GoesOn(env, 0) && |Asked(env, 0).toolCalls| == 1 && FailsAt(env, 1)
    ensures var h := [Message(System, "", "", "", []), UserTurn("q"), FinalAnswer("x"),
                      Caller(Choice("", "", [a])), ToolAnswer(a, "")];
      && WellFormed(h)
      && Handle(Exact(h), 1, env, "").RolledBack?
      && !WellFormed(View(Handle(Exact(h), 1, env, "").messages))
  {
    var h := [Message(System, "", "", "", []), UserTurn("q"), FinalAnswer("x"),
              Caller(Choice("", "", [a])), ToolAnswer(a, "")];
    OrphanHistory(h, a);
    var started := Started(Exact(h), "", env);
    StartedShort(h, "", env);
    StartedWellFormed(Exact(h), "", env);
    CompactorKeepsForm(1);
    TinyLimit(started, 1);
    TinyLimitFailsInPlace(started, env);
    FailureAfterPrefix(started, Compactor(1), env, 0, 2);
  }

  lemma OrphanHistory(h: seq<Message>, a: ToolCall)
    requires h == [Message(System, "", "", "", []), UserTurn("q"), FinalAnswer("x"),
                   Caller(Choice("", "", [a])), ToolAnswer(a, "")]
    ensures WellFormed(h)
  {
    var turns := [UserTurn("q"), FinalAnswer("x")];
    var answers := [ToolAnswer(a, "")];
    PlainTurns(turns);
    CallGroup(Choice("", "", [a]), answers);
    TurnsConcat(turns, [Caller(Choice("", "", [a]))] + answers);
    assert h[1..] == turns + ([Caller(Choice("", "", [a]))] + answers);
  }

  lemma TinyLimitFailsInPlace(s: Slice, env: Env)
    requires s.len >= 2 && GoesOn(env, 0) && FailsAt(env, 1)
    ensures FailsInPlace(s, Compactor(1), env, 1)
  {
    var last := SliceAt(s, Compactor(1), env, 1);
    NextSlice(s, Compactor(1), env, 0);
    ToolRoundView(Compactor(1)(s), Asked(env, 0), 0, env);
    assert |View(last)| >= 2;
    TinyLimit(last, 1);
  }

  /** Another one: a new slice of four messages, one tool call, then a cancellation. The
      rollback keeps the call and cuts off its answer. */
  lemma RollbackCutsCall(env: Env)
    requires GoesOn(env, 0) && |Asked(env, 0).toolCalls| == 1 && env.cancelled(1)
    ensures var r := Handle(Exact(BareHistory(5)), 17, env, "");
      WellFormed(BareHistory(5)) && r.RolledBack? && !WellFormed(View(r.messages))
  {
    StartsBare(5, env);
    BareRunAfterFresh(Started(Exact(BareHistory(5)), "", env), 5, env);
  }

  lemma BareRunAfterFresh(started: Slice, n: nat, env: Env)
    requires BareStart(started, n) && n >= 4 && GoesOn(env, 0) && env.cancelled(1)
    ensures var ms := View(started);
      |ms| == n + 1 &&
      FrontOfBoth(Conversed(started, Compactor(17), env), n, ms[..2] + ms[n - 1..], Added(Asked(env, 0), 0, env))
  {
    CompactorKeepsForm(17);
    BareCompaction(started, n, 17);
    FailureAfterFresh(started, Compactor(17), env, 0, View(started)[..2] + View(started)[n - 1..]);
  }

  /** And one more: seven short messages and spare capacity behind the new slice. The rolled
      back history ends in a zero message. */
  lemma RollbackBringsZeros(env: Env)
    requires GoesOn(env, 0) && |Asked(env, 0).toolCalls| == 1 && env.cancelled(1) && env.spare(4) >= 2
    ensures var r := Handle(Exact(BareHistory(7)), 17, env, "");
      && WellFormed(BareHistory(7)) && r.RolledBack?
      && r.messages.len == 7 && r.messages.store[6] == ZERO_MESSAGE
  {
    StartsBare(7, env);
    BareRunBringsZeros(Started(Exact(BareHistory(7)), "", env), env);
  }

  lemma BareRunBringsZeros(started: Slice, env: Env)
    requires BareStart(started, 7)
    requires GoesOn(env, 0) && |Asked(env, 0).toolCalls| == 1 && env.cancelled(1) && env.spare(4) >= 2
    ensures var r := Conversed(started, Compactor(17), env);
      r.RolledBack? && r.messages.len == 7 && r.messages.store[6] == ZERO_MESSAGE
  {
    var kept := View(started)[..2] + View(started)[6..];
    BareRunAfterFresh(started, 7, env);
    BareCompaction(started, 7, 17);
    SpareIsEnough(started, kept, env);
    LastIsZero(Conversed(started, Compactor(17), env), kept, Added(Asked(env, 0), 0, env));
  }

  lemma LastIsZero(h: Handled, kept: seq<Message>, added: seq<Message>)
    requires |kept| == 4 && |added| == 2 && FrontOfBoth(h, 7, kept, added) && !h.Panicked?
    ensures h.RolledBack? && h.messages.len == 7 && h.messages.store[6] == ZERO_MESSAGE
  {
    assert View(h.messages)[6] == Zeros(1)[0];
  }

  lemma SpareIsEnough(started: Slice, kept: seq<Message>, env: Env)
    requires started.len == 8 && |kept| == 4 && Compactor(17)(started) == Exact(kept)
    requires GoesOn(env, 0) && env.cancelled(1) && env.spare(4) >= 2
    ensures !Conversed(started, Compactor(17), env).Panicked?
  {
    ResliceOfTools(started, Compactor(17), env, 0);
    var grown := Append(Exact(kept), Caller(Asked(env, 0)), env.spare);
    assert |grown.store| >= 7;
    AnswersKeepTail(grown, Asked(env, 0).toolCalls, 0, 0, env);
  }
}
