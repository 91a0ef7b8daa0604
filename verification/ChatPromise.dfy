/**
 What a caller of HandleMessage can rely on before the call, whatever the AI and the tools
 will answer (digcore/diagnose/streaming.go): when an error is sure to roll the user message
 back exactly, and when the history is sure to stay well formed.
 */
module ChatPromise {
  import opened ChatHistory
  import opened ChatStream
  import opened ChatForm
  import opened ChatRollback

  /** The history the rounds start from. */
  function Trimmed(s: Slice, input: string): (ms: seq<Message>) {
    Trim(View(s) + [UserTurn(input)])
  }

  lemma TrimmedShape(s: Slice, input: string)
    requires WellFormed(View(s))
    ensures |Trimmed(s, input)| >= 2 && WellFormed(Trimmed(s, input))
  {
    TrimAfterUserTurn(View(s), UserTurn(input));
  }

  // ---------------------------------------------------------------- a breaking run

  /** A first tool answer that alone outweighs the limit, then a round of `n` calls, then a
      cancellation. */
  predicate Breaks(env: Env, limit: nat, n: nat) {
    && GoesOn(env, 0) && |Asked(env, 0).toolCalls| == 1 && |env.tool(0, 0)| == 2 * limit
    && GoesOn(env, 1) && |Asked(env, 1).toolCalls| == n
    && env.cancelled(2)
  }

  lemma Breaker(limit: nat, n: nat) returns (env: Env)
    requires n >= 1
    ensures Breaks(env, limit, n)
  {
    var call := ToolCall("", "", "");
    env := Env(k => k == 2,
               k => ChatReplied([Choice("", "", if k == 0 then [call] else seq(n, _ => call))], NO_USAGE),
               (k: nat, j: nat) => seq(2 * limit, _ => ' '),
               _ => 0);
  }

  lemma BreakerFails(env: Env, limit: nat, n: nat)
    requires Breaks(env, limit, n)
    ensures Reaches(env, 1) && Reaches(env, 2) && FailsAt(env, 2)
  {
    assert Reaches(env, 0);
  }

  /** A message that alone outweighs the limit, at the end: only the sticky part stays. */
  lemma HeavyEnd(ms: seq<Message>, limit: nat)
    requires |ms| >= 2 && Sticky(ms) < |ms| && limit > 0 && MessageTokens(ms[|ms| - 1]) > limit
    ensures Compact(ms, limit) == Prefix(Sticky(ms))
  {
    var p := Sticky(ms);
    HeavySuffix(ms, 0);
    assert ms[0..] == ms;
    var rest := limit - Tokens(ms[..p]);
    if rest > 0 {
      CutFits(ms, p, rest);
      DecideByCut(ms, p, rest);
      var cut := Cut(ms, p, rest);
      if cut < |ms| {
        HeavySuffix(ms, cut);
      }
    }
  }

  lemma {:induction false} HeavySuffix(ms: seq<Message>, i: nat)
    requires i < |ms|
    ensures Tokens(ms[i..]) >= MessageTokens(ms[|ms| - 1])
    decreases |ms| - i
  {
    assert ms[i..][0] == ms[i] && ms[i..][1..] == ms[i + 1..];
    if i + 1 < |ms| {
      HeavySuffix(ms, i + 1);
    }
  }

  /** Its first round leaves a history that ends in the heavy answer. */
  lemma HeavyRound(s: Slice, env: Env, limit: nat, n: nat)
    requires s.len >= 1 && Breaks(env, limit, n)
    ensures var r := ToolRound(s, Asked(env, 0), 0, env);
      && r.len == s.len + 2 && Sticky(View(r)) == Sticky(View(s))
      && MessageTokens(View(r)[r.len - 1]) > limit
  {
    var c := Asked(env, 0);
    ToolRoundView(s, c, 0, env);
    var r := ToolRound(s, c, 0, env);
    assert View(r)[r.len - 1] == ToolAnswer(c.toolCalls[0], env.tool(0, 0));
    if s.len >= 2 {
      assert View(r)[1] == View(s)[1];
    } else {
      assert View(r)[1] == Caller(c);
    }
  }

  /** Its second round cuts the history to its sticky part before the calls are added. */
  lemma SecondRound(s: Slice, env: Env, limit: nat, n: nat)
    requires s.len >= 1 && limit > 0 && Breaks(env, limit, n) && Reaches(env, 2)
    ensures var q := Sticky(Compacted(View(s), limit));
      var r := SliceAt(s, Compactor(limit), env, 2);
      r.len == q + 1 + n && forall i :: q < i < r.len ==> View(r)[i].role.Tool?
  {
    BreakerFails(env, limit, n);
    var compact := Compactor(limit);
    var first := SliceAt(s, compact, env, 1);
    NextSlice(s, compact, env, 0);
    CompactorShows(s, limit);
    CompactedNotEmpty(View(s), limit);
    HeavyRound(compact(s), env, limit, n);
    HeavyEnd(View(first), limit);
    NextSlice(s, compact, env, 1);
    CallsBehind(compact(first), Asked(env, 1), 1, env);
  }

  lemma CompactedNotEmpty(ms: seq<Message>, limit: int)
    requires ms != []
    ensures Compacted(ms, limit) != []
  {
    CompactedKeepsPart(ms, limit, ms[..1]);
  }

  lemma CallsBehind(s: Slice, c: Choice, k: nat, env: Env)
    ensures var r := ToolRound(s, c, k, env);
      && r.len == s.len + 1 + |c.toolCalls|
      && forall i :: s.len < i < r.len ==> View(r)[i].role.Tool?
  {
    ToolRoundView(s, c, k, env);
  }

  /** Unless all that may be dropped is kept, such a run leaves a call without all of its
      answers. */
  lemma BreakerBreaks(s: Slice, env: Env, limit: nat)
    requires WellFormed(View(s)) && limit > 0 && s.len >= 1 && Breaks(env, limit, s.len - 1)
    requires Sticky(Compacted(View(s), limit)) < s.len - 1
    ensures var h := Conversed(s, Compactor(limit), env); h.RolledBack? && !WellFormed(View(h.messages))
  {
    var n := s.len - 1;
    BreakerFails(env, limit, n);
    CompactorKeepsForm(limit);
    SliceAtWellFormed(s, Compactor(limit), env, 2);
    SecondRound(s, env, limit, n);
    ResliceOfLast(s, Compactor(limit), env, 2);
    InsideCalls(Conversed(s, Compactor(limit), env), SliceAt(s, Compactor(limit), env, 2), n);
  }

  lemma InsideCalls(h: Handled, r: Slice, n: nat)
    requires 1 <= n < r.len && View(r)[n].role.Tool? && WellFormed(View(r)) && ResliceOf(h, r.store, n)
    ensures h.RolledBack? && !WellFormed(View(h.messages))
  {
    TidyIff(r, n);
    assert r.store[n] == View(r)[n];
  }

  // ---------------------------------------------------------------- safe histories

  /** What the first round leaves of its history stays, in front, to the end. */
  lemma OneRoundKeepsPart(c: Slice, compact: Slice -> Slice, env: Env, round: nat, usage: Usage, pre: seq<Message>)
    requires round < CHAT_MAX_ROUNDS && KeepsPart(compact, pre) && pre <= View(c)
    ensures pre <= View(OneRound(c, compact, env, round, usage).messages)
  {
    if env.chat(round).ChatReplied? && env.chat(round).choices != [] && env.chat(round).choices[0].toolCalls != [] {
      var choice := env.chat(round).choices[0];
      ToolRoundView(c, choice, round, env);
      ConverseKeepsPart(ToolRound(c, choice, round, env), compact, env, round + 1,
                        usage.Add(env.chat(round).usage), pre);
    }
  }

  /** The sticky part of the compacted history, cut anywhere, is well formed. */
  lemma StickyCutWellFormed(ms: seq<Message>, n: nat)
    requires WellFormed(ms) && 1 <= n <= Sticky(ms)
    ensures WellFormed(ms[..n])
  {
    if n == 1 {
      assert ms[..1][1..] == [];
    } else {
      StickyTurns(ms);
    }
  }

  lemma CutOfPart(h: Handled, store: seq<Message>, view: seq<Message>, ms: seq<Message>, n: nat)
    requires WellFormed(ms) && 1 <= n <= Sticky(ms) && ms[..Sticky(ms)] <= view <= store
    requires ResliceOf(h, store, n)
    ensures h.RolledBack? && WellFormed(View(h.messages))
  {
    StickyCutWellFormed(ms, n);
    assert store[..n] == ms[..n];
  }

  lemma SafeRun(s: Slice, limit: int, env: Env)
    requires WellFormed(View(s)) && s.len >= 2 && IsPlain(View(s)[s.len - 1])
    requires s.len - 1 <= Sticky(Compacted(View(s), limit))
    ensures WellFormed(View(Conversed(s, Compactor(limit), env).messages))
  {
    var compact := Compactor(limit);
    var r := Converse(s, compact, env, 0, NO_USAGE);
    CompactorKeepsForm(limit);
    ConverseKeepsForm(s, compact, env, 0, NO_USAGE);
    if r.outcome == Failed {
      if env.cancelled(0) {
        DropLastTurn(View(s));
        assert s.store[..s.len - 1] == View(s)[..s.len - 1];
      } else {
        SafeFailure(s, limit, env, r);
      }
    }
  }

  lemma SafeFailure(s: Slice, limit: int, env: Env, r: LoopResult)
    requires WellFormed(View(s)) && s.len >= 2 && s.len - 1 <= Sticky(Compacted(View(s), limit))
    requires !env.cancelled(0) && r == Converse(s, Compactor(limit), env, 0, NO_USAGE) && r.outcome == Failed
    ensures WellFormed(View(Finish(r, s.len - 1).messages))
  {
    var kept := Compacted(View(s), limit);
    var pre := kept[..Sticky(kept)];
    CompactionKeepsForm(View(s), limit);
    CompactorKeepsPart(limit, pre);
    CompactorShows(s, limit);
    OneRoundKeepsPart(Compactor(limit)(s), Compactor(limit), env, 0, NO_USAGE, pre);
    CutOfPart(Finish(r, s.len - 1), r.messages.store, View(r.messages), kept, s.len - 1);
  }

  // ---------------------------------------------------------------- the two promises

  /** No message can spoil the form of this history: there is no limit, or all that the
      rollback keeps is what compaction never drops. */
  predicate FormIsSafe(ms: seq<Message>, limit: int) {
    limit <= 0 || (ms != [] && Compacted(ms, limit) != [] && |ms| - 1 <= Sticky(Compacted(ms, limit)))
  }

  lemma SafeMessage(s: Slice, limit: int, env: Env, input: string)
    requires WellFormed(View(s)) && FormIsSafe(Trimmed(s, input), limit)
    ensures WellFormed(View(Handle(s, limit, env, input).messages))
  {
    if limit <= 0 {
      ErrorRollsBack(s, limit, env, input);
    } else {
      StartedWellFormed(s, input, env);
      SafeRun(Started(s, input, env), limit, env);
    }
  }

  lemma UnsafeMessage(s: Slice, limit: int, input: string) returns (env: Env)
    requires WellFormed(View(s)) && !FormIsSafe(Trimmed(s, input), limit)
    ensures var h := Handle(s, limit, env, input); h.RolledBack? && !WellFormed(View(h.messages))
  {
    TrimmedShape(s, input);
    CompactedNotEmpty(Trimmed(s, input), limit);
    env := Breaker(limit, |Trimmed(s, input)| - 1);
    BreakerBreaks(Started(s, input, env), env, limit);
  }

  /** Whatever the AI and the tools do, the message leaves a well-formed history: this holds
      exactly when there is no context limit, or the trimmed history without the new turn is
      no longer than the sticky part of what compaction makes of it. */
  lemma FormForAllIff(s: Slice, limit: int, input: string)
    requires WellFormed(View(s))
    ensures (forall env :: WellFormed(View(Handle(s, limit, env, input).messages)))
       <==> FormIsSafe(Trimmed(s, input), limit)
  {
    if FormIsSafe(Trimmed(s, input), limit) {
      forall env
        ensures WellFormed(View(Handle(s, limit, env, input).messages))
      {
        SafeMessage(s, limit, env, input);
      }
    } else {
      var env := UnsafeMessage(s, limit, input);
    }
  }

  /** An AI that cannot be reached. */
  const UNREACHABLE := Env(_ => false, _ => ChatFailed, (k: nat, j: nat) => "", _ => 0)

  /** If compaction changes one of the messages to be kept, a failing first call shows it. */
  lemma FirstFailureDiffers(s: Slice, limit: int, i: nat)
    requires s.len >= 2 && i < s.len - 1 <= |Compacted(View(s), limit)|
    requires Compacted(View(s), limit)[i] != View(s)[i]
    ensures !Exactly(Conversed(s, Compactor(limit), UNREACHABLE), View(s))
  {
    var n := s.len - 1;
    var f := Compactor(limit)(s);
    RunFails(s, Compactor(limit), UNREACHABLE, 0);
    CompactorShows(s, limit);
    assert f.store[..n] == View(f)[..n];
    assert View(f)[..n][i] == View(f)[i] && View(s)[..n][i] == View(s)[i];
  }

  lemma InexactMessage(s: Slice, limit: int, input: string) returns (env: Env)
    requires WellFormed(View(s)) && limit > 0
    requires Trimmed(s, input) != [] && |Trimmed(s, input)| - 1 > Sticky(Trimmed(s, input))
    ensures var h := Handle(s, limit, env, input); !h.Answered? && !Exactly(h, Trimmed(s, input))
  {
    var ms := Trimmed(s, input);
    if FormIsSafe(ms, limit) {
      env := UNREACHABLE;
      StartedWellFormed(s, input, env);
      var started := Started(s, input, env);
      RunFails(started, Compactor(limit), env, 0);
      FirstFailureDiffers(started, limit, 1);
    } else {
      env := UnsafeMessage(s, limit, input);
      StartedWellFormed(s, input, env);
      DropLastTurn(ms);
    }
  }

  /** Whatever the AI and the tools do, an error leaves exactly the trimmed history without
      the new turn: this holds exactly when there is no context limit, or that history is no
      longer than its own sticky part. */
  lemma ExactForAllIff(s: Slice, limit: int, input: string)
    requires WellFormed(View(s))
    ensures var ms := Trimmed(s, input);
      && ms != []
      && ((forall env :: !Handle(s, limit, env, input).Answered? ==> Exactly(Handle(s, limit, env, input), ms))
            <==> limit <= 0 || |ms| - 1 <= Sticky(ms))
  {
    var ms := Trimmed(s, input);
    StartedWellFormed(s, input, UNREACHABLE);
    if limit <= 0 || |ms| - 1 <= Sticky(ms) {
      forall env | !Handle(s, limit, env, input).Answered?
        ensures Exactly(Handle(s, limit, env, input), ms)
      {
        if limit <= 0 {
          ErrorRollsBack(s, limit, env, input);
        } else {
          ShortHistoryRollsBack(s, limit, env, input);
        }
      }
    } else {
      var env := InexactMessage(s, limit, input);
    }
  }

  // ---------------------------------------------------------------- whole conversations

  /** Every message is sent on a history whose form it cannot spoil. */
  predicate AllSafe(s: Slice, limit: int, steps: seq<Step>) {
    steps == [] ||
    var n := |steps| - 1;
    && AllSafe(s, limit, steps[..n])
    && (steps[n].Said? ==> FormIsSafe(Trimmed(RunChat(s, limit, steps[..n]), steps[n].input), limit))
  }

  /** A conversation whose messages are all safe, as far as a caller can tell before sending
      them, keeps the history well formed all along; without a limit every one is. */
  lemma {:induction false} ConversationWellFormed(s: Slice, limit: int, steps: seq<Step>)
    requires WellFormed(View(s)) && (limit <= 0 || AllSafe(s, limit, steps))
    ensures AlwaysWellFormed(s, limit, steps)
  {
    if steps != [] {
      var n := |steps| - 1;
      ConversationWellFormed(s, limit, steps[..n]);
      var before := RunChat(s, limit, steps[..n]);
      match steps[n]
      case Said(input, env) =>
        SafeMessage(before, limit, env, input);
      case Reset =>
        assert View(ResetSlice(before)) == [View(before)[0]];
    }
  }
}
