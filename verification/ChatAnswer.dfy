/**
 What a message returns and stores, round by round (HandleMessage and conversationLoop in
 digcore/diagnose/streaming.go), written out message by message.
 */
module ChatAnswer {
  import opened ChatHistory
  import opened ChatStream
  import opened ChatForm
  import opened ChatRollback

  // ---------------------------------------------------------------- the history of a round

  /** What a round that asks for tools adds: the assistant's message with its calls, then one
      answer per call, in order, under the call's ID. */
  function CallsAndResults(env: Env, k: nat): (ms: seq<Message>)
    requires GoesOn(env, k)
  {
    var c := env.chat(k).choices[0];
    [Message(Assistant, c.content, c.reasoning, "", c.toolCalls)]
    + seq(|c.toolCalls|, j requires 0 <= j < |c.toolCalls| =>
            Message(Tool, env.tool(k, j), "", c.toolCalls[j].id, []))
  }

  /** The history round `k` starts from. */
  function HistoryAt(ms: seq<Message>, limit: int, env: Env, k: nat): (h: seq<Message>)
    requires Reaches(env, k)
  {
    if k == 0 then ms
    else Compacted(HistoryAt(ms, limit, env, k - 1), limit) + CallsAndResults(env, k - 1)
  }

  lemma AddedIsWritten(env: Env, k: nat)
    requires GoesOn(env, k)
    ensures Added(Asked(env, k), k, env) == CallsAndResults(env, k)
  {
    var c := env.chat(k).choices[0];
    assert Answers(c.toolCalls, 0, k, env) == CallsAndResults(env, k)[1..];
  }

  lemma {:induction false} SliceIsHistory(s: Slice, limit: int, env: Env, k: nat)
    requires Reaches(env, k)
    ensures View(SliceAt(s, Compactor(limit), env, k)) == HistoryAt(View(s), limit, env, k)
  {
    if k > 0 {
      SliceIsHistory(s, limit, env, k - 1);
      NextIsHistory(s, limit, env, k);
    }
  }

  lemma NextIsHistory(s: Slice, limit: int, env: Env, k: nat)
    requires k > 0 && Reaches(env, k)
    requires View(SliceAt(s, Compactor(limit), env, k - 1)) == HistoryAt(View(s), limit, env, k - 1)
    ensures View(SliceAt(s, Compactor(limit), env, k)) == HistoryAt(View(s), limit, env, k)
  {
    RoundIsHistory(SliceAt(s, Compactor(limit), env, k - 1), HistoryAt(View(s), limit, env, k - 1), limit, env, k - 1);
  }

  lemma RoundIsHistory(before: Slice, h: seq<Message>, limit: int, env: Env, k: nat)
    requires GoesOn(env, k) && View(before) == h
    ensures View(ToolRound(Compactor(limit)(before), Asked(env, k), k, env))
         == Compacted(h, limit) + CallsAndResults(env, k)
  {
    CompactorShows(before, limit);
    ToolRoundView(Compactor(limit)(before), Asked(env, k), k, env);
    AddedIsWritten(env, k);
  }

  // ---------------------------------------------------------------- how a message ends

  /** The AI answers without asking for tools. */
  predicate AnswersAt(env: Env, k: nat) {
    && k < CHAT_MAX_ROUNDS && !env.cancelled(k) && env.chat(k).ChatReplied?
    && env.chat(k).choices != [] && env.chat(k).choices[0].toolCalls == []
  }

  /** Every message ends in one of three ways: it fails, it is answered, or its rounds run out. */
  lemma {:induction false} EveryMessageEnds(env: Env, from: nat) returns (k: nat)
    requires Reaches(env, from) && from <= CHAT_MAX_ROUNDS
    ensures Reaches(env, k) && (FailsAt(env, k) || AnswersAt(env, k) || k == CHAT_MAX_ROUNDS)
    decreases CHAT_MAX_ROUNDS - from
  {
    if GoesOn(env, from) {
      k := EveryMessageEnds(env, from + 1);
    } else {
      k := from;
    }
  }

  lemma RunAnswers(s: Slice, compact: Slice -> Slice, env: Env, k: nat)
    requires Reaches(env, k) && AnswersAt(env, k)
    ensures var r := Converse(s, compact, env, 0, NO_USAGE);
      var text := env.chat(k).choices[0].content;
      && r.outcome == Replied(text) && r.aiCalls == k + 1
      && View(r.messages) == View(compact(SliceAt(s, compact, env, k))) + [Message(Assistant, text, "", "", [])]
  {
    var u := RunAt(s, compact, env, k);
  }

  lemma RunExhausted(s: Slice, compact: Slice -> Slice, env: Env)
    requires Reaches(env, CHAT_MAX_ROUNDS)
    ensures var r := Converse(s, compact, env, 0, NO_USAGE);
      && r.outcome == Replied("[incomplete] max tool-calling rounds reached") && r.aiCalls == CHAT_MAX_ROUNDS
      && View(r.messages) == View(SliceAt(s, compact, env, CHAT_MAX_ROUNDS))
  {
    var u := RunAt(s, compact, env, CHAT_MAX_ROUNDS);
  }

  /** The history a message starts from: the old one and the new turn, trimmed. */
  function StartOf(s: Slice, input: string): (ms: seq<Message>) {
    Trim(View(s) + [Message(User, input, "", "", [])])
  }

  /** An answered message returns the text of the AI's first choice and stores it, as one
      assistant message without calls, behind the compacted history of that round. */
  lemma AnswerIsStored(s: Slice, limit: int, env: Env, input: string, k: nat)
    requires Reaches(env, k) && AnswersAt(env, k)
    ensures var h := Handle(s, limit, env, input);
      var text := env.chat(k).choices[0].content;
      && h.Answered? && h.text == text && h.usage == Reported(env, 0, k + 1)
      && View(h.messages) == Compacted(HistoryAt(StartOf(s, input), limit, env, k), limit)
                             + [Message(Assistant, text, "", "", [])]
  {
    var started := Started(s, input, env);
    RunAnswers(started, Compactor(limit), env, k);
    UsageIsReported(started, Compactor(limit), env, 0, NO_USAGE);
    SliceIsHistory(started, limit, env, k);
    CompactorShows(SliceAt(started, Compactor(limit), env, k), limit);
  }

  /** When the rounds run out, the reply says so and nothing is added. */
  lemma ExhaustedIsReported(s: Slice, limit: int, env: Env, input: string)
    requires Reaches(env, CHAT_MAX_ROUNDS)
    ensures var h := Handle(s, limit, env, input);
      && h.Answered? && h.text == "[incomplete] max tool-calling rounds reached"
      && h.usage == Reported(env, 0, 20)
      && View(h.messages) == HistoryAt(StartOf(s, input), limit, env, 20)
  {
    var started := Started(s, input, env);
    RunExhausted(started, Compactor(limit), env);
    UsageIsReported(started, Compactor(limit), env, 0, NO_USAGE);
    SliceIsHistory(started, limit, env, CHAT_MAX_ROUNDS);
  }

  /** An answered message was answered in some round, or its rounds ran out. */
  lemma AnsweredWhen(s: Slice, limit: int, env: Env, input: string) returns (k: nat)
    requires Handle(s, limit, env, input).Answered?
    ensures Reaches(env, k) && (AnswersAt(env, k) || k == CHAT_MAX_ROUNDS)
  {
    k := EveryMessageEnds(env, 0);
    if FailsAt(env, k) {
      RunFails(Started(s, input, env), Compactor(limit), env, k);
    }
  }

  // ---------------------------------------------------------------- without a limit

  /** The calls and results of the rounds before `k`, in order. */
  function AllCalls(env: Env, k: nat): (ms: seq<Message>)
    requires Reaches(env, k)
  {
    if k == 0 then [] else AllCalls(env, k - 1) + CallsAndResults(env, k - 1)
  }

  lemma {:induction false} UnlimitedHistory(ms: seq<Message>, limit: int, env: Env, k: nat)
    requires Reaches(env, k) && limit <= 0
    ensures HistoryAt(ms, limit, env, k) == ms + AllCalls(env, k)
  {
    if k == 0 {
      assert ms + AllCalls(env, 0) == ms;
    } else {
      UnlimitedHistory(ms, limit, env, k - 1);
      Regroup(ms, AllCalls(env, k - 1), CallsAndResults(env, k - 1));
    }
  }

  lemma Regroup(a: seq<Message>, b: seq<Message>, c: seq<Message>)
    ensures a + b + c == a + (b + c)
  {
  }

  /** Without a context limit the whole history of an answered message is the trimmed one with
      the new turn, then the calls and results of every round, then the answer. */
  lemma UnlimitedAnswer(s: Slice, limit: int, env: Env, input: string, k: nat)
    requires limit <= 0 && Reaches(env, k) && AnswersAt(env, k)
    ensures View(Handle(s, limit, env, input).messages) ==
      StartOf(s, input) + AllCalls(env, k) + [Message(Assistant, env.chat(k).choices[0].content, "", "", [])]
  {
    AnswerIsStored(s, limit, env, input, k);
    UnlimitedHistory(StartOf(s, input), limit, env, k);
  }
}
