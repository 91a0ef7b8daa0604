/**
 The multi-turn chat store (ChatStream in digcore/diagnose/streaming.go). The AI, the
 tools and the context are arbitrary oracles. Histories are Go slices: a length over a
 backing store, because rolling back re-slices and so sees the store behind the length.
 */
module ChatStream {
  import opened ChatHistory

  const CHAT_MAX_ROUNDS: nat := 20
  const INCOMPLETE: string := "[incomplete] max tool-calling rounds reached"

  datatype Usage = Usage(prompt: int, completion: int, total: int) {
    function Add(u: Usage): (r: Usage) {
      Usage(prompt + u.prompt, completion + u.completion, total + u.total)
    }
  }

  datatype Choice = Choice(content: string, reasoning: string, toolCalls: seq<ToolCall>)

  datatype ChatReply = ChatFailed | ChatReplied(choices: seq<Choice>, usage: Usage)

  /** What the outside does during one HandleMessage call: is the context cancelled at a
      round, what does the AI answer, what does the k-th tool call of a round yield, and
      how much spare capacity does append allocate when it grows a slice. */
  datatype Env = Env(
    cancelled: nat -> bool,
    chat: nat -> ChatReply,
    tool: (nat, nat) -> string,
    spare: nat -> nat)

  // ---------------------------------------------------------------- slices

  const ZERO_MESSAGE := Message(NoRole, "", "", "", [])

  datatype RawSlice = RawSlice(store: seq<Message>, len: nat)

  type Slice = s: RawSlice | s.len <= |s.store| witness RawSlice([], 0)

  function View(s: Slice): (ms: seq<Message>) {
    s.store[..s.len]
  }

  function Append(s: Slice, m: Message, spare: nat -> nat): (r: Slice)
    ensures View(r) == View(s) + [m]
  {
    if s.len < |s.store| then RawSlice(s.store[s.len := m], s.len + 1)
    else RawSlice(s.store + [m] + seq(spare(|s.store|), _ => ZERO_MESSAGE), s.len + 1)
  }

  /** A slice made with exactly the capacity it needs. */
  function Exact(ms: seq<Message>): (s: Slice)
    ensures View(s) == ms
  {
    RawSlice(ms, |ms|)
  }

  function TrimSlice(s: Slice): (r: Slice)
    ensures View(r) == Trim(View(s))
  {
    if Trim(View(s)) == View(s) then s else Exact(Trim(View(s)))
  }

  /** The slice CompactMessages hands back: the same one, a shorter view of the same
      store, or a new store of exactly the kept length. */
  function ApplyCompaction(s: Slice, c: Compaction): (r: Slice)
    requires c.Prefix? ==> c.n <= s.len
  {
    match c
    case Same => s
    case Prefix(n) => RawSlice(s.store, n)
    case Fresh(kept) => Exact(kept)
  }

  function CompactSlice(s: Slice, limit: int): (r: Slice) {
    ApplyCompaction(s, Compact(View(s), limit))
  }

  lemma CompactSliceView(s: Slice, limit: int)
    ensures View(CompactSlice(s, limit)) == Compacted(View(s), limit)
  {
    var c := Compact(View(s), limit);
    if c.Prefix? {
      assert View(s)[..c.n] == s.store[..c.n];
    }
  }

  /** What happens to the history at the start of each round. */
  function Compactor(limit: int): (f: Slice -> Slice) {
    if limit > 0 then (s: Slice) => CompactSlice(s, limit) else (s: Slice) => s
  }

  ghost predicate KeepsForm(f: Slice -> Slice) {
    forall s: Slice :: WellFormed(View(s)) ==> WellFormed(View(f(s)))
  }

  lemma CompactorKeepsForm(limit: int)
    ensures KeepsForm(Compactor(limit))
  {
    if limit > 0 {
      forall s: Slice | WellFormed(View(s))
        ensures WellFormed(View(Compactor(limit)(s)))
      {
        CompactSliceView(s, limit);
        CompactionKeepsForm(View(s), limit);
      }
    }
  }

  // ---------------------------------------------------------------- one message

  function UserTurn(input: string): (m: Message) {
    Message(User, input, "", "", [])
  }

  function FinalAnswer(content: string): (m: Message) {
    Message(Assistant, content, "", "", [])
  }

  function Caller(c: Choice): (m: Message) {
    Message(Assistant, c.content, c.reasoning, "", c.toolCalls)
  }

  function ToolAnswer(call: ToolCall, result: string): (m: Message) {
    Message(Tool, result, "", call.id, [])
  }

  /** The answers to the calls of one round, from the k-th on. */
  function AppendAnswers(s: Slice, calls: seq<ToolCall>, k: nat, round: nat, env: Env): (r: Slice)
    requires k <= |calls|
    decreases |calls| - k
  {
    if k == |calls| then s
    else AppendAnswers(Append(s, ToolAnswer(calls[k], env.tool(round, k)), env.spare), calls, k + 1, round, env)
  }

  function ToolRound(s: Slice, c: Choice, round: nat, env: Env): (r: Slice) {
    AppendAnswers(Append(s, Caller(c), env.spare), c.toolCalls, 0, round, env)
  }

  datatype Outcome = Replied(text: string) | Failed

  datatype LoopResult = LoopResult(messages: Slice, usage: Usage, aiCalls: nat, outcome: Outcome)

  /** The rounds from `round` on. */
  function Converse(s: Slice, compact: Slice -> Slice, env: Env, round: nat, usage: Usage): (r: LoopResult)
    decreases CHAT_MAX_ROUNDS - round, 1
  {
    if round >= CHAT_MAX_ROUNDS then LoopResult(s, usage, round, Replied(INCOMPLETE))
    else if env.cancelled(round) then LoopResult(s, usage, round, Failed)
    else OneRound(compact(s), compact, env, round, usage)
  }

  /** One round from the AI call on; `c` is the compacted history. */
  function OneRound(c: Slice, compact: Slice -> Slice, env: Env, round: nat, usage: Usage): (r: LoopResult)
    requires round < CHAT_MAX_ROUNDS
    decreases CHAT_MAX_ROUNDS - round, 0
  {
    match env.chat(round)
    case ChatFailed => LoopResult(c, usage, round + 1, Failed)
    case ChatReplied(choices, u) =>
      var total := usage.Add(u);
      if choices == [] then LoopResult(c, total, round + 1, Failed)
      else if choices[0].toolCalls == [] then
        LoopResult(Append(c, FinalAnswer(choices[0].content), env.spare), total, round + 1,
                   Replied(choices[0].content))
      else Converse(ToolRound(c, choices[0], round, env), compact, env, round + 1, total)
  }

  datatype Handled =
    | Answered(messages: Slice, text: string, usage: Usage)
    | RolledBack(messages: Slice, usage: Usage)
    | Panicked(messages: Slice)

  /** The history a message starts from: the old one with the user turn, trimmed. */
  function Started(s: Slice, input: string, env: Env): (r: Slice)
    ensures View(r) == Trim(View(s) + [UserTurn(input)])
    ensures r.len >= 1
  {
    TrimSlice(Append(s, UserTurn(input), env.spare))
  }

  /** Re-slicing to `n` messages: legal up to the capacity, a run-time panic beyond. */
  function Rollback(s: Slice, n: nat, usage: Usage): (h: Handled) {
    if n <= |s.store| then RolledBack(RawSlice(s.store, n), usage) else Panicked(s)
  }

  function Handle(s: Slice, limit: int, env: Env, input: string): (h: Handled) {
    Conversed(Started(s, input, env), Compactor(limit), env)
  }

  /** The rounds of a message and what becomes of it, for any way to compact. */
  function Conversed(started: Slice, compact: Slice -> Slice, env: Env): (h: Handled)
    requires started.len >= 1
  {
    Finish(Converse(started, compact, env, 0, Usage(0, 0, 0)), started.len - 1)
  }

  function Finish(r: LoopResult, n: nat): (h: Handled) {
    match r.outcome
    case Replied(text) => Answered(r.messages, text, r.usage)
    case Failed => Rollback(r.messages, n, r.usage)
  }

  // ---------------------------------------------------------------- whole conversations

  datatype Step = Said(input: string, env: Env) | Reset

  function ResetSlice(s: Slice): (r: Slice) {
    if s.len > 0 && s.store[0].role.System? then Exact([s.store[0]]) else Exact([])
  }

  /** The history after a whole conversation. */
  function RunChat(s: Slice, limit: int, steps: seq<Step>): (r: Slice) {
    if steps == [] then s
    else NextChat(RunChat(s, limit, steps[..|steps| - 1]), limit, steps[|steps| - 1])
  }

  function NextChat(s: Slice, limit: int, step: Step): (r: Slice) {
    match step
    case Said(input, env) => Handle(s, limit, env, input).messages
    case Reset => ResetSlice(s)
  }

  // ---------------------------------------------------------------- the object

  class ChatStream {
    const contextWindowLimit: int
    var messages: Slice

    constructor (systemPrompt: string, contextWindowLimit: int)
      ensures this.contextWindowLimit == contextWindowLimit
      ensures View(messages) == [Message(System, systemPrompt, "", "", [])]
      ensures WellFormed(View(messages))
    {
      this.contextWindowLimit := contextWindowLimit;
      messages := Exact([Message(System, systemPrompt, "", "", [])]);
    }

    /** Processes one user message. */
    method HandleMessage(input: string, env: Env) returns (h: Handled)
      modifies this
      ensures h == Handle(old(messages), contextWindowLimit, env, input)
      ensures messages == h.messages
    {
      messages := Append(messages, UserTurn(input), env.spare);
      var trimmed := TrimHistory(View(messages));
      if trimmed != View(messages) {
        messages := Exact(trimmed);
      }
      var msgCount := messages.len;
      assert messages == Started(old(messages), input, env);
      var r := ConversationLoop(env);
      match r.outcome
      case Replied(text) =>
        h := Answered(messages, text, r.usage);
      case Failed =>
        if msgCount - 1 <= |messages.store| {
          messages := RawSlice(messages.store, msgCount - 1);
          h := RolledBack(messages, r.usage);
        } else {
          h := Panicked(messages);
        }
    }

    /** Runs AI rounds until a final text or the round limit. */
    method ConversationLoop(env: Env) returns (r: LoopResult)
      modifies this
      ensures r == Converse(old(messages), Compactor(contextWindowLimit), env, 0, Usage(0, 0, 0))
      ensures messages == r.messages
    {
      var totalUsage := Usage(0, 0, 0);
      ghost var compact := Compactor(contextWindowLimit);
      ghost var whole := Converse(messages, compact, env, 0, totalUsage);
      for round := 0 to CHAT_MAX_ROUNDS
        invariant Converse(messages, compact, env, round, totalUsage) == whole
      {
        if env.cancelled(round) {
          return LoopResult(messages, totalUsage, round, Failed);
        }
        if contextWindowLimit > 0 {
          var c := CompactMessages(View(messages), contextWindowLimit);
          messages := ApplyCompaction(messages, c);
        }
        var resp := env.chat(round);
        if resp.ChatFailed? {
          return LoopResult(messages, totalUsage, round + 1, Failed);
        }
        totalUsage := totalUsage.Add(resp.usage);
        if |resp.choices| == 0 {
          return LoopResult(messages, totalUsage, round + 1, Failed);
        }
        var choice := resp.choices[0];
        if |choice.toolCalls| == 0 {
          messages := Append(messages, FinalAnswer(choice.content), env.spare);
          return LoopResult(messages, totalUsage, round + 1, Replied(choice.content));
        }
        AnswerCalls(choice, round, env);
      }
      return LoopResult(messages, totalUsage, CHAT_MAX_ROUNDS, Replied(INCOMPLETE));
    }

    /** Records the assistant's calls and executes them one by one. */
    method AnswerCalls(choice: Choice, round: nat, env: Env)
      modifies this
      ensures messages == ToolRound(old(messages), choice, round, env)
    {
      messages := Append(messages, Caller(choice), env.spare);
      for k := 0 to |choice.toolCalls|
        invariant AppendAnswers(messages, choice.toolCalls, k, round, env)
               == ToolRound(old(messages), choice, round, env)
      {
        var tc := choice.toolCalls[k];
        messages := Append(messages, ToolAnswer(tc, env.tool(round, k)), env.spare);
      }
    }
  }
}
