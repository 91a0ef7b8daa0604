/**
 What the rounds of one message keep (ChatStream in digcore/diagnose/streaming.go): the form
 of the history, the rollback as long as nothing is compacted, and the usage that is reported.
 */
module ChatForm {
  import opened ChatHistory
  import opened ChatStream

  // ---------------------------------------------------------------- form

  function Answers(calls: seq<ToolCall>, k: nat, round: nat, env: Env): (ms: seq<Message>)
    requires k <= |calls|
    ensures |ms| == |calls| - k
    ensures forall i :: 0 <= i < |ms| ==> ms[i] == ToolAnswer(calls[k + i], env.tool(round, k + i))
    decreases |calls| - k
  {
    if k == |calls| then [] else [ToolAnswer(calls[k], env.tool(round, k))] + Answers(calls, k + 1, round, env)
  }

  lemma {:induction false} AnswersView(s: Slice, calls: seq<ToolCall>, k: nat, round: nat, env: Env)
    requires k <= |calls|
    ensures View(AppendAnswers(s, calls, k, round, env)) == View(s) + Answers(calls, k, round, env)
    decreases |calls| - k
  {
    if k < |calls| {
      var m := ToolAnswer(calls[k], env.tool(round, k));
      AnswersView(Append(s, m, env.spare), calls, k + 1, round, env);
      assert View(s) + [m] + Answers(calls, k + 1, round, env) == View(s) + Answers(calls, k, round, env);
    }
  }

  /** A call followed by its answers is one complete group. */
  lemma CallGroup(c: Choice, answers: seq<Message>)
    requires c.toolCalls != [] && |answers| == |c.toolCalls|
    requires forall i :: 0 <= i < |answers| ==> Answer(answers[i], c.toolCalls[i].id)
    ensures Turns([Caller(c)] + answers)
  {
    var group := [Caller(c)] + answers;
    assert group[0] == Caller(c) && GroupLen(group) == |group|;
    assert forall k :: 1 <= k < |group| ==> group[k] == answers[k - 1];
    assert StartsWithGroup(group);
    assert group[GroupLen(group)..] == [];
  }

  lemma ToolRoundView(s: Slice, c: Choice, round: nat, env: Env)
    ensures View(ToolRound(s, c, round, env)) == View(s) + ([Caller(c)] + Answers(c.toolCalls, 0, round, env))
  {
    AnswersView(Append(s, Caller(c), env.spare), c.toolCalls, 0, round, env);
  }

  /** One tool round adds a complete group to the history. */
  lemma ToolRoundKeepsForm(s: Slice, c: Choice, round: nat, env: Env)
    requires c.toolCalls != [] && WellFormed(View(s))
    ensures WellFormed(View(ToolRound(s, c, round, env)))
  {
    var answers := Answers(c.toolCalls, 0, round, env);
    ToolRoundView(s, c, round, env);
    CallGroup(c, answers);
    JoinKeepsForm(View(s), [Caller(c)] + answers);
  }

  lemma FinalAnswerKeepsForm(s: Slice, text: string, env: Env)
    requires WellFormed(View(s))
    ensures WellFormed(View(Append(s, FinalAnswer(text), env.spare)))
  {
    assert Turns([FinalAnswer(text)]);
    JoinKeepsForm(View(s), [FinalAnswer(text)]);
  }

  /** Whatever the AI and the tools do, and however the history is compacted in between,
      the rounds of one message keep it well formed and use at most 20 AI calls. */
  lemma {:induction false} ConverseKeepsForm(s: Slice, compact: Slice -> Slice, env: Env, round: nat, usage: Usage)
    requires WellFormed(View(s)) && KeepsForm(compact) && round <= CHAT_MAX_ROUNDS
    ensures var r := Converse(s, compact, env, round, usage);
      WellFormed(View(r.messages)) && round <= r.aiCalls <= CHAT_MAX_ROUNDS
    decreases CHAT_MAX_ROUNDS - round
  {
    if round < CHAT_MAX_ROUNDS && !env.cancelled(round) && env.chat(round).ChatReplied? {
      var c := compact(s);
      var reply := env.chat(round);
      if reply.choices != [] {
        var choice := reply.choices[0];
        if choice.toolCalls == [] {
          FinalAnswerKeepsForm(c, choice.content, env);
        } else {
          ToolRoundKeepsForm(c, choice, round, env);
          ConverseKeepsForm(ToolRound(c, choice, round, env), compact, env, round + 1, usage.Add(reply.usage));
        }
      }
    }
  }

  // ---------------------------------------------------------------- rollback

  /** No round of this run had to compact the history. */
  predicate Quiet(s: Slice, compact: Slice -> Slice, env: Env, round: nat)
    decreases CHAT_MAX_ROUNDS - round
  {
    round >= CHAT_MAX_ROUNDS || env.cancelled(round) || (
      && compact(s) == s
      && (env.chat(round).ChatReplied? && env.chat(round).choices != []
          && env.chat(round).choices[0].toolCalls != [] ==>
            Quiet(ToolRound(s, env.chat(round).choices[0], round, env), compact, env, round + 1)))
  }

  lemma {:induction false} QuietExtends(s: Slice, compact: Slice -> Slice, env: Env, round: nat, usage: Usage)
    requires Quiet(s, compact, env, round)
    ensures View(s) <= View(Converse(s, compact, env, round, usage).messages)
    decreases CHAT_MAX_ROUNDS - round
  {
    if round < CHAT_MAX_ROUNDS && !env.cancelled(round) && env.chat(round).ChatReplied? {
      var reply := env.chat(round);
      if reply.choices != [] && reply.choices[0].toolCalls != [] {
        var next := ToolRound(s, reply.choices[0], round, env);
        ToolRoundView(s, reply.choices[0], round, env);
        QuietExtends(next, compact, env, round + 1, usage.Add(reply.usage));
      }
    }
  }

  lemma {:induction false} NoLimitIsQuiet(s: Slice, limit: int, env: Env, round: nat)
    requires limit <= 0
    ensures Quiet(s, Compactor(limit), env, round)
    decreases CHAT_MAX_ROUNDS - round
  {
    if round < CHAT_MAX_ROUNDS && !env.cancelled(round) && env.chat(round).ChatReplied? {
      var reply := env.chat(round);
      if reply.choices != [] && reply.choices[0].toolCalls != [] {
        NoLimitIsQuiet(ToolRound(s, reply.choices[0], round, env), limit, env, round + 1);
      }
    }
  }

  /** A message starts from a well-formed history of at most 41 messages that ends in
      the new user turn. */
  lemma StartedWellFormed(s: Slice, input: string, env: Env)
    requires WellFormed(View(s))
    ensures var started := Started(s, input, env);
      && WellFormed(View(started)) && 2 <= started.len <= MAX_HISTORY_MESSAGES + 1
      && View(started)[started.len - 1] == Message(User, input, "", "", [])
  {
    TrimAfterUserTurn(View(s), UserTurn(input));
  }

  /** For every context limit, an answered message leaves a well-formed history. */
  lemma AnsweredWellFormed(s: Slice, limit: int, env: Env, input: string)
    requires WellFormed(View(s))
    ensures var h := Handle(s, limit, env, input); h.Answered? ==> WellFormed(View(h.messages))
  {
    StartedWellFormed(s, input, env);
    CompactorKeepsForm(limit);
    ConverseKeepsForm(Started(s, input, env), Compactor(limit), env, 0, Usage(0, 0, 0));
  }

  /** As long as nothing was compacted, a failed message leaves exactly the trimmed
      history without the new turn, and an answered one only adds to the trimmed history. */
  lemma QuietRollback(s: Slice, limit: int, env: Env, input: string)
    requires WellFormed(View(s))
    requires Quiet(Started(s, input, env), Compactor(limit), env, 0)
    ensures KeptOrDropped(Handle(s, limit, env, input), Started(s, input, env))
    ensures WellFormed(View(Handle(s, limit, env, input).messages))
  {
    QuietOutcome(s, limit, env, input);
    AnsweredWellFormed(s, limit, env, input);
    StartedWellFormed(s, input, env);
    DroppedWellFormed(Handle(s, limit, env, input), Started(s, input, env));
  }

  /** Without a context limit every message either extends the trimmed history or, on any
      error, leaves exactly the trimmed history without the new turn; both are well formed. */
  lemma ErrorRollsBack(s: Slice, limit: int, env: Env, input: string)
    requires WellFormed(View(s)) && limit <= 0
    ensures KeptOrDropped(Handle(s, limit, env, input), Started(s, input, env))
    ensures WellFormed(View(Handle(s, limit, env, input).messages))
  {
    NoLimitIsQuiet(Started(s, input, env), limit, env, 0);
    QuietRollback(s, limit, env, input);
  }

  lemma DroppedWellFormed(h: Handled, started: Slice)
    requires KeptOrDropped(h, started) && (h.Answered? ==> WellFormed(View(h.messages)))
    requires WellFormed(View(started)) && started.len >= 2 && IsPlain(View(started)[started.len - 1])
    ensures WellFormed(View(h.messages))
  {
    DropLastTurn(View(started));
  }

  lemma QuietOutcome(s: Slice, limit: int, env: Env, input: string)
    requires Quiet(Started(s, input, env), Compactor(limit), env, 0)
    ensures KeptOrDropped(Handle(s, limit, env, input), Started(s, input, env))
  {
    var started := Started(s, input, env);
    QuietExtends(started, Compactor(limit), env, 0, Usage(0, 0, 0));
    FinishOfExtension(started, Converse(started, Compactor(limit), env, 0, Usage(0, 0, 0)));
  }

  /** An answered message extends `started`; a failed one drops its last turn. */
  predicate KeptOrDropped(h: Handled, started: Slice) {
    && !h.Panicked? && started.len >= 1
    && (h.Answered? ==> View(started) <= View(h.messages))
    && (h.RolledBack? ==> View(h.messages) == View(started)[..started.len - 1])
  }

  lemma FinishOfExtension(started: Slice, r: LoopResult)
    requires View(started) <= View(r.messages) && started.len >= 1
    ensures KeptOrDropped(Finish(r, started.len - 1), started)
  {
    ResliceOfExtension(started, r.messages, started.len - 1);
  }

  lemma ResliceOfExtension(a: Slice, b: Slice, n: nat)
    requires View(a) <= View(b) && n <= a.len
    ensures n <= |b.store| && View(RawSlice(b.store, n)) == View(a)[..n]
  {
    assert a.len <= b.len;
    assert View(b)[..n] == b.store[..n];
    assert View(b)[..n] == View(a)[..n];
  }

  /** A history that ends in a plain message is well formed without it. */
  lemma DropLastTurn(h: seq<Message>)
    requires WellFormed(h) && |h| >= 2 && IsPlain(h[|h| - 1])
    ensures WellFormed(h[..|h| - 1])
  {
    var n := |h| - 1;
    assert h[1..][n - 1] == h[n];
    TurnsSplit(h[1..], n - 1);
    assert h[1..][..n - 1] == h[..n][1..];
  }

  // ---------------------------------------------------------------- usage

  /** The tokens reported by the AI calls of rounds lo to hi - 1. */
  function Reported(env: Env, lo: nat, hi: nat): (u: Usage)
    requires lo <= hi
    decreases hi - lo
  {
    if lo == hi then Usage(0, 0, 0)
    else
      var rest := Reported(env, lo + 1, hi);
      match env.chat(lo)
      case ChatFailed => rest
      case ChatReplied(_, u) =>
        Usage(u.prompt + rest.prompt, u.completion + rest.completion, u.total + rest.total)
  }

  /** The usage returned, with a reply or with an error, is the sum of what the AI calls
      of this message reported. */
  lemma {:induction false} UsageIsReported(s: Slice, compact: Slice -> Slice, env: Env, round: nat, usage: Usage)
    requires round <= CHAT_MAX_ROUNDS
    ensures var r := Converse(s, compact, env, round, usage);
      && round <= r.aiCalls
      && var u := Reported(env, round, r.aiCalls);
         r.usage == Usage(usage.prompt + u.prompt, usage.completion + u.completion, usage.total + u.total)
    decreases CHAT_MAX_ROUNDS - round
  {
    if round < CHAT_MAX_ROUNDS && !env.cancelled(round) {
      var reply := env.chat(round);
      if reply.ChatReplied? && reply.choices != [] && reply.choices[0].toolCalls != [] {
        UsageIsReported(ToolRound(compact(s), reply.choices[0], round, env), compact, env, round + 1,
                        usage.Add(reply.usage));
      } else {
        assert Reported(env, round + 1, round + 1) == Usage(0, 0, 0);
      }
    }
  }
}
