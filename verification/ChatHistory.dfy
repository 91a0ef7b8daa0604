/**
 The message history of a chat (trimHistory in digcore/diagnose/streaming.go and
 CompactMessages in digcore/diagnose/aiclient/compact.go). A history is well formed when
 every assistant message that calls tools is followed at once by its tool answers.
 */
module ChatHistory {
  import opened Common

  const MAX_HISTORY_MESSAGES: nat := 40
  const PER_MESSAGE_OVERHEAD: nat := 4

  datatype ToolCall = ToolCall(id: string, name: string, args: string)

  datatype Role = NoRole | System | User | Assistant | Tool

  datatype Message =
    Message(role: Role, content: string, reasoning: string, toolCallID: string, toolCalls: seq<ToolCall>)

  predicate IsCaller(m: Message) { m.role.Assistant? && m.toolCalls != [] }

  predicate IsPlain(m: Message) { (m.role.User? || m.role.Assistant?) && m.toolCalls == [] }

  predicate Answer(m: Message, id: string) { m.role.Tool? && m.toolCallID == id && m.toolCalls == [] }

  /** Length of the first group: a plain message, or a call with its answers. */
  function GroupLen(s: seq<Message>): (n: nat)
    requires s != []
    ensures n >= 1
  {
    if IsCaller(s[0]) then 1 + |s[0].toolCalls| else 1
  }

  /** `s` begins with a plain message, or with a call followed by one answer per call,
      in order and with matching IDs. */
  predicate StartsWithGroup(s: seq<Message>) {
    && s != [] && GroupLen(s) <= |s|
    && (IsCaller(s[0]) || IsPlain(s[0]))
    && forall k :: 1 <= k < GroupLen(s) ==> Answer(s[k], s[0].toolCalls[k - 1].id)
  }

  /** A sequence of complete groups. */
  predicate Turns(s: seq<Message>) {
    s == [] || (StartsWithGroup(s) && Turns(s[GroupLen(s)..]))
  }

  predicate WellFormed(h: seq<Message>) {
    h != [] && h[0].role.System? && Turns(h[1..])
  }

  lemma GroupIsLocal(s: seq<Message>, t: seq<Message>)
    requires s != [] && t != [] && GroupLen(s) <= |t|
    requires forall k :: 0 <= k < GroupLen(s) && k < |s| ==> s[k] == t[k]
    requires StartsWithGroup(s)
    ensures StartsWithGroup(t) && GroupLen(t) == GroupLen(s)
  {
    assert s[0] == t[0];
  }

  lemma {:induction false} TurnsConcat(a: seq<Message>, b: seq<Message>)
    requires Turns(a) && Turns(b)
    ensures Turns(a + b)
  {
    if a == [] {
      assert a + b == b;
    } else {
      var n := GroupLen(a);
      GroupIsLocal(a, a + b);
      TurnsConcat(a[n..], b);
      assert (a + b)[n..] == a[n..] + b;
    }
  }

  /** A history may be cut at any message that is not a tool answer. */
  lemma {:induction false} TurnsSplit(s: seq<Message>, i: nat)
    requires Turns(s) && i <= |s| && (i < |s| ==> !s[i].role.Tool?)
    ensures Turns(s[..i]) && Turns(s[i..])
  {
    if i == 0 {
      assert s[0..] == s;
    } else {
      var n := GroupLen(s);
      NotInsideGroup(s, i);
      assert s[n..][..i - n] == s[..i][n..] && s[n..][i - n..] == s[i..];
      TurnsSplit(s[n..], i - n);
      GroupIsLocal(s, s[..i]);
    }
  }

  /** Cutting in front of a tool answer leaves an incomplete group behind. */
  lemma {:induction false} NoTurnsInsideGroup(s: seq<Message>, i: nat)
    requires Turns(s) && i < |s| && Turns(s[..i])
    ensures !s[i].role.Tool?
  {
    if i > 0 {
      var n := GroupLen(s);
      assert s[..i][0] == s[0];
      assert GroupLen(s[..i]) == n <= i;
      assert s[..i][n..] == s[n..][..i - n];
      NoTurnsInsideGroup(s[n..], i - n);
    }
  }

  /** A complete part in front can be taken away. */
  lemma {:induction false} TurnsCancel(a: seq<Message>, b: seq<Message>)
    requires Turns(a) && Turns(a + b)
    ensures Turns(b)
  {
    if a == [] {
      assert a + b == b;
    } else {
      var n := GroupLen(a);
      assert (a + b)[0] == a[0] && (a + b)[n..] == a[n..] + b;
      TurnsCancel(a[n..], b);
    }
  }

  /** A well-formed history may be cut off behind any message unless a tool answer follows. */
  lemma PrefixKeepsFormIff(h: seq<Message>, n: nat)
    requires WellFormed(h) && 1 <= n <= |h|
    ensures WellFormed(h[..n]) <==> n == |h| || !h[n].role.Tool?
  {
    assert h[..n][1..] == h[1..][..n - 1];
    if n == |h| {
      assert h[..n] == h;
    } else {
      assert h[1..][n - 1] == h[n];
      if h[n].role.Tool? {
        if WellFormed(h[..n]) {
          NoTurnsInsideGroup(h[1..], n - 1);
        }
      } else {
        TurnsSplit(h[1..], n - 1);
      }
    }
  }

  /** What follows a well-formed history must be complete by itself. */
  lemma JoinKeepsFormIff(a: seq<Message>, b: seq<Message>)
    requires WellFormed(a)
    ensures WellFormed(a + b) <==> Turns(b)
  {
    SecondPart(a, b);
    if Turns(b) {
      JoinKeepsForm(a, b);
    } else if Turns(a[1..] + b) {
      TurnsCancel(a[1..], b);
    }
  }

  lemma NotInsideGroup(s: seq<Message>, i: nat)
    requires StartsWithGroup(s) && 0 < i <= |s| && (i < |s| ==> !s[i].role.Tool?)
    ensures GroupLen(s) <= i
  {
  }

  // ---------------------------------------------------------------- trimming

  /** A message trimHistory must not begin the kept part with. */
  predicate Unsafe(m: Message) { m.role.Tool? || IsCaller(m) }

  function SafeCut(ms: seq<Message>, cut: nat): (i: nat)
    requires cut <= |ms|
    ensures cut <= i <= |ms|
    ensures forall k :: cut <= k < i ==> Unsafe(ms[k])
    ensures i < |ms| ==> !Unsafe(ms[i])
    decreases |ms| - cut
  {
    if cut < |ms| && Unsafe(ms[cut]) then SafeCut(ms, cut + 1) else cut
  }

  /** Where the kept part begins, if anything is dropped. */
  function TrimPoint(ms: seq<Message>): (p: Option<nat>)
    ensures p.Some? ==> 1 < |ms| - MAX_HISTORY_MESSAGES <= p.value < |ms|
  {
    var cut := |ms| - MAX_HISTORY_MESSAGES;
    if cut <= 1 then None
    else if SafeCut(ms, cut) < |ms| then Some(SafeCut(ms, cut))
    else if |ms| > MAX_HISTORY_MESSAGES * 2 then Some(cut)
    else None
  }

  function Trim(ms: seq<Message>): (r: seq<Message>) {
    match TrimPoint(ms)
    case None => ms
    case Some(i) => [ms[0]] + ms[i..]
  }

  method TrimHistory(messages: seq<Message>) returns (result: seq<Message>)
    ensures result == Trim(messages)
  {
    if |messages| <= MAX_HISTORY_MESSAGES + 1 {
      return messages;
    }
    var cut := |messages| - MAX_HISTORY_MESSAGES;
    var safeCut := FindSafeCut(messages, cut);
    if safeCut < |messages| {
      cut := safeCut;
    } else if |messages| > MAX_HISTORY_MESSAGES * 2 {
      cut := |messages| - MAX_HISTORY_MESSAGES;
    } else {
      return messages;
    }
    result := [messages[0]];
    result := result + messages[cut..];
  }

  /** The loop of trimHistory: steps over tool answers and tool-calling messages. */
  method FindSafeCut(messages: seq<Message>, cut: nat) returns (safeCut: nat)
    requires cut <= |messages|
    ensures safeCut == SafeCut(messages, cut)
  {
    safeCut := cut;
    while safeCut < |messages|
      invariant cut <= safeCut <= |messages|
      invariant SafeCut(messages, cut) == SafeCut(messages, safeCut)
    {
      var msg := messages[safeCut];
      if msg.role.Tool? {
        safeCut := safeCut + 1;
        continue;
      }
      if msg.role.Assistant? && |msg.toolCalls| > 0 {
        safeCut := safeCut + 1;
        continue;
      }
      break;
    }
  }

  /** Dropping everything between the system prompt and a non-answer keeps the form. */
  lemma CutKeepsForm(ms: seq<Message>, i: nat)
    requires WellFormed(ms) && 1 <= i <= |ms| && (i < |ms| ==> !ms[i].role.Tool?)
    ensures WellFormed([ms[0]] + ms[i..])
  {
    TurnsSplit(ms[1..], i - 1);
    assert ms[1..][i - 1..] == ms[i..];
    assert ([ms[0]] + ms[i..])[1..] == ms[i..];
  }

  /** trimHistory on a history that just received a user turn: at most 41 messages, the
      system prompt first, a suffix of the history after it, the new turn last, and no
      tool answer without its call. */
  lemma TrimAfterUserTurn(h: seq<Message>, u: Message)
    requires WellFormed(h) && u.role.User? && u.toolCalls == []
    ensures var r := Trim(h + [u]);
      && WellFormed(r) && |r| <= MAX_HISTORY_MESSAGES + 1 && |r| >= 2
      && r[0] == h[0] && r[|r| - 1] == u
      && r[1..] == (h + [u])[|h| + 2 - |r|..]
  {
    assert Turns([u]);
    JoinKeepsForm(h, [u]);
    TrimBeforePlain(h + [u]);
  }

  lemma TrimBeforePlain(ms: seq<Message>)
    requires WellFormed(ms) && |ms| >= 2 && !Unsafe(ms[|ms| - 1])
    ensures var r := Trim(ms);
      && WellFormed(r) && 2 <= |r| <= MAX_HISTORY_MESSAGES + 1
      && r[0] == ms[0] && r[|r| - 1] == ms[|ms| - 1] && r[1..] == ms[|ms| + 1 - |r|..]
  {
    if |ms| > MAX_HISTORY_MESSAGES + 1 {
      assert TrimPoint(ms).Some?;
      var i := TrimPoint(ms).value;
      CutKeepsForm(ms, i);
      assert ([ms[0]] + ms[i..])[1..] == ms[i..];
    }
  }

  /** A message that trimming steps over: a tool answer, or an assistant message with calls. */
  predicate SteppedOver(m: Message) {
    m.role == Tool || (m.role == Assistant && m.toolCalls != [])
  }

  /** What is kept of a long history: the first message, and everything from the first message
      of the last 40 on that trimming does not step over. */
  lemma TrimKeeps(ms: seq<Message>, i: nat)
    requires |ms| > 41 && |ms| - 40 <= i < |ms| && !SteppedOver(ms[i])
    requires forall j :: |ms| - 40 <= j < i ==> SteppedOver(ms[j])
    ensures Trim(ms) == [ms[0]] + ms[i..]
  {
    assert SafeCut(ms, |ms| - 40) == i;
  }

  /** Short histories stay, and so do those of up to 80 messages whose last 40 are all tool
      traffic; of longer ones the last 40 are kept. */
  lemma TrimOtherwise(ms: seq<Message>)
    requires |ms| <= 41 || forall j :: |ms| - 40 <= j < |ms| ==> SteppedOver(ms[j])
    ensures Trim(ms) == if |ms| <= 80 then ms else [ms[0]] + ms[|ms| - 40..]
  {
  }

  /** The kept window of a long history holds nothing but tool traffic, and it is too
      long to be kept whole. */
  predicate ForcedCut(ms: seq<Message>) {
    |ms| > MAX_HISTORY_MESSAGES * 2 && SafeCut(ms, |ms| - MAX_HISTORY_MESSAGES) == |ms|
  }

  /** "It never splits a tool-call sequence" holds exactly when the cut is not forced in
      front of a tool answer. */
  lemma TrimSplitsOnlyWhenForced(ms: seq<Message>)
    requires WellFormed(ms)
    ensures WellFormed(Trim(ms)) <==>
      !(ForcedCut(ms) && ms[|ms| - MAX_HISTORY_MESSAGES].role.Tool?)
  {
    if TrimPoint(ms).Some? {
      CutKeepsFormIff(ms, TrimPoint(ms).value);
    }
  }

  /** A history of one assistant message with `n` calls and their answers. */
  function LongRound(call: ToolCall, n: nat): (ms: seq<Message>)
    ensures |ms| == n + 2
  {
    [Message(System, "", "", "", []), Message(Assistant, "", "", "", seq(n, _ => call))]
    + seq(n, _ => Message(Tool, "", "", call.id, []))
  }

  lemma LongRoundIsWellFormed(call: ToolCall, n: nat)
    requires n > 0
    ensures WellFormed(LongRound(call, n))
    ensures forall i :: 2 <= i < n + 2 ==> LongRound(call, n)[i].role.Tool?
  {
    var ms := LongRound(call, n);
    var s := ms[1..];
    assert s[0] == ms[1] && GroupLen(s) == |s|;
    assert forall k :: 1 <= k < |s| ==> s[k] == Message(Tool, "", "", call.id, []);
    assert StartsWithGroup(s);
    assert s[GroupLen(s)..] == [];
  }

  /** The documented promise fails on every history that is one round of 79 or more calls. */
  lemma TrimCanSplit(call: ToolCall, n: nat)
    requires n >= 79
    ensures WellFormed(LongRound(call, n)) && !WellFormed(Trim(LongRound(call, n)))
  {
    var ms := LongRound(call, n);
    LongRoundIsWellFormed(call, n);
    var cut := |ms| - MAX_HISTORY_MESSAGES;
    assert SafeCut(ms, cut) == |ms|;
    TrimSplitsOnlyWhenForced(ms);
  }

  lemma CutKeepsFormIff(ms: seq<Message>, i: nat)
    requires WellFormed(ms) && 1 <= i < |ms|
    ensures WellFormed([ms[0]] + ms[i..]) <==> !ms[i].role.Tool?
  {
    if ms[i].role.Tool? {
      OrphanBreaksForm(ms, i);
    } else {
      CutKeepsForm(ms, i);
    }
  }

  lemma OrphanBreaksForm(ms: seq<Message>, cut: nat)
    requires cut < |ms| && ms[cut].role.Tool?
    ensures !WellFormed([ms[0]] + ms[cut..])
  {
    assert ([ms[0]] + ms[cut..])[1..] == ms[cut..];
  }

  // ---------------------------------------------------------------- token estimates

  /** One token per two characters, rounded up. */
  function EstimateTokens(text: string): (n: nat)
    ensures 2 * n - 1 <= |text| <= 2 * n
  {
    (|text| + 1) / 2
  }

  function CallTokens(calls: seq<ToolCall>): (n: nat) {
    if calls == [] then 0
    else CallTokens(calls[..|calls| - 1])
         + EstimateTokens(calls[|calls| - 1].name) + EstimateTokens(calls[|calls| - 1].args) + 10
  }

  function MessageTokens(m: Message): (n: nat)
    ensures n >= PER_MESSAGE_OVERHEAD
  {
    EstimateTokens(m.content) + EstimateTokens(m.reasoning) + PER_MESSAGE_OVERHEAD + CallTokens(m.toolCalls)
  }

  function Tokens(ms: seq<Message>): (n: nat) {
    if ms == [] then 0 else MessageTokens(ms[0]) + Tokens(ms[1..])
  }

  lemma {:induction false} TokensConcat(a: seq<Message>, b: seq<Message>)
    ensures Tokens(a + b) == Tokens(a) + Tokens(b)
  {
    if a == [] {
      assert a + b == b;
    } else {
      assert (a + b)[1..] == a[1..] + b;
      TokensConcat(a[1..], b);
    }
  }

  /** The characters of a history: contents, reasoning, call names and call arguments. */
  function Characters(ms: seq<Message>): (n: nat) {
    if ms == [] then 0
    else |ms[0].content| + |ms[0].reasoning| + CallCharacters(ms[0].toolCalls) + Characters(ms[1..])
  }

  function CallCharacters(calls: seq<ToolCall>): (n: nat) {
    if calls == [] then 0
    else CallCharacters(calls[..|calls| - 1]) + |calls[|calls| - 1].name| + |calls[|calls| - 1].args|
  }

  function CallCount(ms: seq<Message>): (n: nat) {
    if ms == [] then 0 else |ms[0].toolCalls| + CallCount(ms[1..])
  }

  lemma {:induction false} CallsWeigh(calls: seq<ToolCall>)
    ensures CallCharacters(calls) + 20 * |calls| <= 2 * CallTokens(calls) <= CallCharacters(calls) + 22 * |calls|
  {
    if calls != [] {
      CallsWeigh(calls[..|calls| - 1]);
    }
  }

  /** The estimate is the number of character pairs plus four tokens a message and ten a call,
      up to the rounding of the two texts of each message and each call. */
  lemma {:induction false} EstimateIsTight(ms: seq<Message>)
    ensures var exact := Characters(ms) + 8 * |ms| + 20 * CallCount(ms);
      exact <= 2 * Tokens(ms) <= exact + 2 * |ms| + 2 * CallCount(ms)
  {
    if ms != [] {
      CallsWeigh(ms[0].toolCalls);
      EstimateIsTight(ms[1..]);
    }
  }

  // ---------------------------------------------------------------- groups

  datatype Group = Group(start: nat, tokens: nat)

  /** The first index at or after `i` that does not hold a tool answer. */
  function SkipTools(ms: seq<Message>, i: nat): (j: nat)
    requires i <= |ms|
    ensures i <= j <= |ms|
    ensures forall k :: i <= k < j ==> ms[k].role.Tool?
    ensures j < |ms| ==> !ms[j].role.Tool?
    decreases |ms| - i
  {
    if i < |ms| && ms[i].role.Tool? then SkipTools(ms, i + 1) else i
  }

  function GroupEnd(ms: seq<Message>, i: nat): (j: nat)
    requires i < |ms|
    ensures i < j <= |ms|
  {
    if IsCaller(ms[i]) then SkipTools(ms, i + 1) else i + 1
  }

  function Groups(ms: seq<Message>, i: nat): (gs: seq<Group>)
    requires i <= |ms|
    ensures forall k :: 0 <= k < |gs| ==> i <= gs[k].start < |ms|
    decreases |ms| - i
  {
    if i == |ms| then []
    else
      var j := GroupEnd(ms, i);
      [Group(i, Tokens(ms[i..j]))] + Groups(ms, j)
  }

  method ParseMessageGroups(messages: seq<Message>, startIdx: nat) returns (groups: seq<Group>)
    requires 1 <= startIdx <= |messages|
    ensures groups == Groups(messages, startIdx)
  {
    groups := [];
    var i := startIdx;
    while i < |messages|
      invariant startIdx <= i <= |messages|
      invariant Groups(messages, startIdx) == groups + Groups(messages, i)
    {
      var next, t := ScanGroup(messages, i);
      groups := groups + [Group(i, t)];
      i := next;
    }
  }

  /** One group: its end and its weight. */
  method ScanGroup(messages: seq<Message>, start: nat) returns (i: nat, t: nat)
    requires start < |messages|
    ensures i == GroupEnd(messages, start) && t == Tokens(messages[start..i])
  {
    t := MessageTokens(messages[start]);
    i := start + 1;
    TokensOfOne(messages, start);
    if IsCaller(messages[start]) {
      while i < |messages| && messages[i].role.Tool?
        invariant start < i <= |messages|
        invariant SkipTools(messages, start + 1) == SkipTools(messages, i)
        invariant t == Tokens(messages[start..i])
      {
        TokensSnoc(messages, start, i);
        t := t + MessageTokens(messages[i]);
        i := i + 1;
      }
    }
  }

  lemma TokensOfOne(ms: seq<Message>, i: nat)
    requires i < |ms|
    ensures Tokens(ms[i..i + 1]) == MessageTokens(ms[i])
  {
    assert ms[i..i + 1] == [ms[i]] && [ms[i]][1..] == [];
  }

  lemma TokensSnoc(ms: seq<Message>, start: nat, i: nat)
    requires start <= i < |ms|
    ensures Tokens(ms[start..i + 1]) == Tokens(ms[start..i]) + MessageTokens(ms[i])
  {
    TokensConcat(ms[start..i], ms[i..i + 1]);
    TokensOfOne(ms, i);
    assert ms[start..i] + ms[i..i + 1] == ms[start..i + 1];
  }

  /** In a well-formed history a group is a plain message or a call with its answers. */
  lemma {:induction false} SkipToolsIsGroup(ms: seq<Message>, i: nat)
    requires i < |ms| && Turns(ms[i..])
    ensures GroupEnd(ms, i) == i + GroupLen(ms[i..])
    ensures Turns(ms[GroupEnd(ms, i)..])
  {
    var s := ms[i..];
    var n := GroupLen(s);
    assert s[0] == ms[i] && s[n..] == ms[i + n..];
    if IsCaller(ms[i]) {
      GroupEndsAfter(ms, i);
      GroupEndsBefore(ms, i);
    }
  }

  lemma GroupEndsAfter(ms: seq<Message>, i: nat)
    requires i < |ms| && IsCaller(ms[i]) && StartsWithGroup(ms[i..])
    ensures GroupEnd(ms, i) >= i + GroupLen(ms[i..])
  {
    var j := GroupEnd(ms, i);
    assert ms[i..][0] == ms[i] && (j < |ms| ==> ms[j] == ms[i..][j - i]);
    NotInsideGroup(ms[i..], j - i);
  }

  lemma GroupEndsBefore(ms: seq<Message>, i: nat)
    requires i < |ms| && StartsWithGroup(ms[i..]) && Turns(ms[i..][GroupLen(ms[i..])..])
    ensures GroupEnd(ms, i) <= i + GroupLen(ms[i..])
  {
    var n := GroupLen(ms[i..]);
    assert ms[i..][0] == ms[i];
    if i + n < |ms| {
      assert ms[i..][n..][0] == ms[i + n];
    }
  }

  lemma {:induction false} GroupsAligned(ms: seq<Message>, i: nat, k: nat)
    requires i <= |ms| && Turns(ms[i..]) && k < |Groups(ms, i)|
    ensures var start := Groups(ms, i)[k].start;
      && i <= start < |ms| && (k > 0 ==> i < start)
      && !ms[start].role.Tool? && Turns(ms[start..])
    decreases |ms| - i
  {
    if k == 0 {
      NoOrphanFirst(ms, i);
    } else {
      var j := GroupEnd(ms, i);
      SkipToolsIsGroup(ms, i);
      LaterGroup(ms, i, k);
      GroupsAligned(ms, j, k - 1);
    }
  }

  lemma NoOrphanFirst(ms: seq<Message>, i: nat)
    requires i < |ms| && Turns(ms[i..])
    ensures !ms[i].role.Tool?
  {
    assert ms[i..][0] == ms[i];
  }

  lemma LaterGroup(ms: seq<Message>, i: nat, k: nat)
    requires i < |ms| && 0 < k < |Groups(ms, i)|
    ensures var later := Groups(ms, GroupEnd(ms, i));
      k - 1 < |later| && Groups(ms, i)[k] == later[k - 1]
  {
  }

  function GroupTokens(gs: seq<Group>): (n: nat) {
    if gs == [] then 0 else gs[0].tokens + GroupTokens(gs[1..])
  }

  /** The groups weigh what the messages weigh. */
  lemma {:induction false} GroupTokensAreTokens(ms: seq<Message>, i: nat)
    requires i <= |ms|
    ensures GroupTokens(Groups(ms, i)) == Tokens(ms[i..])
    decreases |ms| - i
  {
    if i < |ms| {
      var j := GroupEnd(ms, i);
      GroupTokensAreTokens(ms, j);
      GroupTokensCons(Group(i, Tokens(ms[i..j])), Groups(ms, j));
      TokensSplit(ms, i, j);
    }
  }

  lemma GroupTokensCons(g: Group, gs: seq<Group>)
    ensures GroupTokens([g] + gs) == g.tokens + GroupTokens(gs)
  {
    assert ([g] + gs)[1..] == gs;
  }

  lemma TokensSplit(ms: seq<Message>, i: nat, j: nat)
    requires i <= j <= |ms|
    ensures Tokens(ms[i..]) == Tokens(ms[i..j]) + Tokens(ms[j..])
  {
    TokensConcat(ms[i..j], ms[j..]);
    assert ms[i..j] + ms[j..] == ms[i..];
  }

  /** Where the k-th group starts; the end of the history when there is none. */
  function StartOf(ms: seq<Message>, gs: seq<Group>, k: nat): (i: nat)
    requires k <= |gs|
  {
    if k == |gs| then |ms| else gs[k].start
  }

  lemma {:induction false} GroupsSuffix(ms: seq<Message>, i: nat, k: nat)
    requires i <= |ms| && k <= |Groups(ms, i)|
    ensures i <= StartOf(ms, Groups(ms, i), k) <= |ms|
    ensures Groups(ms, i)[k..] == Groups(ms, StartOf(ms, Groups(ms, i), k))
    ensures k == 0 <==> StartOf(ms, Groups(ms, i), k) == i
    decreases |ms| - i
  {
    if k > 0 {
      var j := GroupEnd(ms, i);
      GroupsSuffix(ms, j, k - 1);
      assert Groups(ms, i)[k..] == Groups(ms, j)[k - 1..];
    }
  }

  // ---------------------------------------------------------------- compaction

  /** How CompactMessages answers: the same slice, a prefix of it, or a new slice. */
  datatype Compaction = Same | Prefix(n: nat) | Fresh(kept: seq<Message>)

  function Sticky(ms: seq<Message>): (n: nat)
    requires ms != []
    ensures 1 <= n <= |ms|
  {
    if |ms| > 1 && ms[1].role.User? && ms[1].toolCalls == [] then 2 else 1
  }

  /** The first group of the longest suffix of whole groups that fits in `budget`. */
  function KeepFrom(gs: seq<Group>, budget: int): (k: nat)
    requires budget >= 0
    ensures k <= |gs|
  {
    if gs == [] || GroupTokens(gs) <= budget then 0 else 1 + KeepFrom(gs[1..], budget)
  }

  lemma {:induction false} KeepFromFits(gs: seq<Group>, budget: int)
    requires budget >= 0
    ensures var k := KeepFrom(gs, budget);
      && GroupTokens(gs[k..]) <= budget
      && (k > 0 ==> GroupTokens(gs[k - 1..]) > budget)
  {
    assert gs[0..] == gs;
    var k := KeepFrom(gs, budget);
    if k > 0 {
      KeepFromFits(gs[1..], budget);
      assert gs[1..][k - 1..] == gs[k..];
      assert k > 1 ==> gs[1..][k - 2..] == gs[k - 1..];
    }
  }

  /** The first message kept behind the sticky prefix. */
  function Cut(ms: seq<Message>, sticky: nat, rest: int): (i: nat)
    requires sticky <= |ms| && rest >= 0
  {
    var gs := Groups(ms, sticky);
    StartOf(ms, gs, KeepFrom(gs, rest))
  }

  lemma CutFits(ms: seq<Message>, sticky: nat, rest: int)
    requires sticky <= |ms| && rest >= 0
    ensures var i := Cut(ms, sticky, rest);
      && sticky <= i <= |ms| && Tokens(ms[i..]) <= rest
      && (i == sticky <==> Tokens(ms[sticky..]) <= rest)
  {
    var gs := Groups(ms, sticky);
    var k := KeepFrom(gs, rest);
    KeepFromFits(gs, rest);
    GroupsSuffix(ms, sticky, k);
    GroupTokensAreTokens(ms, Cut(ms, sticky, rest));
    GroupTokensAreTokens(ms, sticky);
    assert gs[0..] == gs;
    if k > 0 {
      GroupTokensShrink(gs, 0, k - 1);
    }
  }

  /** What is kept is maximal: one more group in front of it would not fit. */
  lemma CutIsMaximal(ms: seq<Message>, sticky: nat, rest: int)
    requires sticky <= |ms| && rest >= 0 && Cut(ms, sticky, rest) != sticky
    ensures var gs := Groups(ms, sticky);
      var k := KeepFrom(gs, rest);
      && 0 < k <= |gs| && gs[k - 1].start < Cut(ms, sticky, rest)
      && Tokens(ms[gs[k - 1].start..]) > rest
  {
    var gs := Groups(ms, sticky);
    var k := KeepFrom(gs, rest);
    KeepFromFits(gs, rest);
    GroupsSuffix(ms, sticky, k);
    GroupsSuffix(ms, sticky, k - 1);
    GroupTokensAreTokens(ms, gs[k - 1].start);
    GroupTokensAreTokens(ms, Cut(ms, sticky, rest));
    CutFits(ms, sticky, rest);
    StartsIncrease(ms, sticky, k);
  }

  lemma StartsIncrease(ms: seq<Message>, i: nat, k: nat)
    requires i <= |ms| && 0 < k <= |Groups(ms, i)|
    ensures Groups(ms, i)[k - 1].start < StartOf(ms, Groups(ms, i), k)
  {
    GroupsSuffix(ms, i, k - 1);
    var j := Groups(ms, i)[k - 1].start;
    assert Groups(ms, i)[k - 1..][0] == Groups(ms, i)[k - 1];
    if k < |Groups(ms, i)| {
      assert Groups(ms, i)[k - 1..][1] == Groups(ms, i)[k];
    }
  }

  lemma CutAligned(ms: seq<Message>, sticky: nat, rest: int)
    requires sticky <= |ms| && rest >= 0 && Turns(ms[sticky..])
    ensures var i := Cut(ms, sticky, rest); i <= |ms| && Turns(ms[i..])
  {
    var gs := Groups(ms, sticky);
    var k := KeepFrom(gs, rest);
    if k < |gs| {
      GroupsAligned(ms, sticky, k);
    }
  }

  /** What is kept when only the newest groups fit behind the sticky prefix. */
  function Decide(ms: seq<Message>, sticky: nat, rest: int): (c: Compaction)
    requires sticky <= |ms| && rest >= 0
    ensures c.Prefix? ==> c.n == sticky
  {
    var gs := Groups(ms, sticky);
    var k := KeepFrom(gs, rest);
    if k == 0 then Same
    else if k >= |gs| then Prefix(sticky)
    else Fresh(ms[..sticky] + ms[gs[k].start..])
  }

  lemma DecideByCut(ms: seq<Message>, sticky: nat, rest: int)
    requires sticky <= |ms| && rest >= 0
    ensures var cut := Cut(ms, sticky, rest);
      && sticky <= cut <= |ms|
      && Decide(ms, sticky, rest) ==
        if cut == sticky then Same
        else if cut == |ms| then Prefix(sticky)
        else Fresh(ms[..sticky] + ms[cut..])
  {
    GroupsSuffix(ms, sticky, KeepFrom(Groups(ms, sticky), rest));
  }

  function Compact(ms: seq<Message>, budget: int): (c: Compaction)
    ensures c.Prefix? ==> c.n <= |ms|
  {
    if |ms| <= 1 || budget <= 0 || Tokens(ms) <= budget then Same
    else
      var sticky := Sticky(ms);
      var rest := budget - Tokens(ms[..sticky]);
      if rest <= 0 then Prefix(sticky) else Decide(ms, sticky, rest)
  }

  function Compacted(ms: seq<Message>, budget: int): (r: seq<Message>) {
    match Compact(ms, budget)
    case Same => ms
    case Prefix(n) => ms[..n]
    case Fresh(kept) => kept
  }

  lemma {:induction false} GroupTokensShrink(gs: seq<Group>, j: nat, k: nat)
    requires j <= k <= |gs|
    ensures GroupTokens(gs[k..]) <= GroupTokens(gs[j..])
    decreases k - j
  {
    if j < k {
      assert gs[j..][1..] == gs[j + 1..];
      GroupTokensShrink(gs, j + 1, k);
    }
  }

  lemma KeepFromUnique(gs: seq<Group>, budget: int, k: nat)
    requires budget >= 0 && k <= |gs|
    requires GroupTokens(gs[k..]) <= budget
    requires k > 0 ==> GroupTokens(gs[k - 1..]) > budget
    ensures k == KeepFrom(gs, budget)
  {
    var m := KeepFrom(gs, budget);
    KeepFromFits(gs, budget);
    if k < m {
      GroupTokensShrink(gs, k, m - 1);
    } else if m < k {
      GroupTokensShrink(gs, m, k - 1);
    }
  }

  method CompactMessages(messages: seq<Message>, tokenBudget: int) returns (c: Compaction)
    ensures c == Compact(messages, tokenBudget)
  {
    if |messages| <= 1 || tokenBudget <= 0 {
      return Same;
    }
    if Tokens(messages) <= tokenBudget {
      return Same;
    }
    var stickyPrefix := 1;
    if |messages| > 1 && messages[1].role.User? && |messages[1].toolCalls| == 0 {
      stickyPrefix := 2;
    }
    var budget := tokenBudget - Tokens(messages[..stickyPrefix]);
    if budget <= 0 {
      return Prefix(stickyPrefix);
    }
    c := KeepNewest(messages, stickyPrefix, budget);
  }

  method KeepNewest(messages: seq<Message>, stickyPrefix: nat, budget: int) returns (c: Compaction)
    requires 1 <= stickyPrefix <= |messages| && budget >= 0
    ensures c == Decide(messages, stickyPrefix, budget)
  {
    var groups := ParseMessageGroups(messages, stickyPrefix);
    var keepFrom := SelectGroups(groups, budget);
    if keepFrom == 0 {
      return Same;
    }
    if keepFrom >= |groups| {
      return Prefix(stickyPrefix);
    }
    return Fresh(messages[..stickyPrefix] + messages[groups[keepFrom].start..]);
  }

  /** Walks back from the newest group while the groups still fit. */
  method SelectGroups(groups: seq<Group>, budget: int) returns (keepFrom: nat)
    requires budget >= 0
    ensures keepFrom == KeepFrom(groups, budget)
  {
    keepFrom := |groups|;
    var sum := 0;
    while keepFrom > 0
      invariant keepFrom <= |groups|
      invariant sum == GroupTokens(groups[keepFrom..]) <= budget
    {
      assert groups[keepFrom - 1..][1..] == groups[keepFrom..];
      if sum + groups[keepFrom - 1].tokens > budget {
        break;
      }
      sum := sum + groups[keepFrom - 1].tokens;
      keepFrom := keepFrom - 1;
    }
    KeepFromUnique(groups, budget, keepFrom);
  }

  lemma StickyTurns(ms: seq<Message>)
    requires WellFormed(ms)
    ensures Turns(ms[Sticky(ms)..]) && WellFormed(ms[..Sticky(ms)])
  {
    var n := Sticky(ms);
    if n == 2 {
      assert ms[1..][0] == ms[1];
      assert ms[1..][1..] == ms[2..];
      assert ms[..2][1..] == [ms[1]];
      assert Turns([ms[1]]);
    } else {
      assert ms[..1][1..] == [];
    }
  }

  /** Compaction keeps the form: calls and answers leave together. */
  lemma CompactionKeepsForm(ms: seq<Message>, budget: int)
    requires WellFormed(ms)
    ensures WellFormed(Compacted(ms, budget))
  {
    var c := Compact(ms, budget);
    if c.Prefix? {
      PrefixIsSticky(ms, budget);
      StickyTurns(ms);
    } else if c.Fresh? {
      FreshKeepsForm(ms, budget);
    }
  }

  lemma PrefixIsSticky(ms: seq<Message>, budget: int)
    requires Compact(ms, budget).Prefix?
    ensures ms != [] && Compact(ms, budget).n == Sticky(ms)
  {
  }

  lemma FreshKeepsForm(ms: seq<Message>, budget: int)
    requires WellFormed(ms) && Compact(ms, budget).Fresh?
    ensures WellFormed(Compact(ms, budget).kept)
  {
    StickyTurns(ms);
    DecideKeepsForm(ms, Sticky(ms), budget - Tokens(ms[..Sticky(ms)]));
  }

  lemma DecideKeepsForm(ms: seq<Message>, sticky: nat, rest: int)
    requires sticky <= |ms| && rest >= 0 && Decide(ms, sticky, rest).Fresh?
    requires WellFormed(ms[..sticky]) && Turns(ms[sticky..])
    ensures WellFormed(Decide(ms, sticky, rest).kept)
  {
    var i := Cut(ms, sticky, rest);
    DecideByCut(ms, sticky, rest);
    CutAligned(ms, sticky, rest);
    JoinKeepsForm(ms[..sticky], ms[i..]);
  }

  lemma JoinKeepsForm(a: seq<Message>, b: seq<Message>)
    requires WellFormed(a) && Turns(b)
    ensures WellFormed(a + b)
  {
    TurnsConcat(a[1..], b);
    SecondPart(a, b);
  }

  lemma SecondPart(a: seq<Message>, b: seq<Message>)
    requires a != []
    ensures (a + b)[0] == a[0] && (a + b)[1..] == a[1..] + b
  {
  }

  /** What compaction achieves: it changes the history exactly when it is over budget,
      then makes it shorter, and the result fits whenever the sticky prefix does. */
  lemma CompactionFits(ms: seq<Message>, budget: int)
    requires |ms| > 1 && budget > 0
    ensures Compact(ms, budget) == Same <==> Tokens(ms) <= budget
    ensures Tokens(ms[..Sticky(ms)]) <= budget ==> Tokens(Compacted(ms, budget)) <= budget
    ensures Compacted(ms, budget) != ms ==> |Compacted(ms, budget)| < |ms|
  {
    if Tokens(ms) > budget {
      var n := Sticky(ms);
      if Tokens(ms[..n]) < budget {
        OverBudget(ms, n, budget - Tokens(ms[..n]));
      }
      PrefixIsShorter(ms, n);
    }
  }

  lemma PrefixIsShorter(ms: seq<Message>, n: nat)
    requires n <= |ms|
    ensures ms[..n] != ms ==> n < |ms|
  {
    if n == |ms| {
      assert ms[..n] == ms;
    }
  }

  lemma OverBudget(ms: seq<Message>, n: nat, rest: int)
    requires n <= |ms| && rest > 0 && Tokens(ms) > Tokens(ms[..n]) + rest
    ensures var c := Decide(ms, n, rest);
      && !c.Same? && (c.Prefix? ==> c.n == n)
      && (c.Fresh? ==> |c.kept| < |ms| && Tokens(c.kept) <= Tokens(ms[..n]) + rest)
  {
    TokensConcat(ms[..n], ms[n..]);
    assert ms[..n] + ms[n..] == ms;
    var i := Cut(ms, n, rest);
    CutFits(ms, n, rest);
    DecideByCut(ms, n, rest);
    TokensConcat(ms[..n], ms[i..]);
  }

  // ---------------------------------------------------------------- what compaction keeps

  /** Behind the first `n` messages, `c` is the earliest place where a part of the history that
      starts with no tool answer fits into `rest`; the end of the history if there is none. In
      a history of complete turns the part itself starts with no tool answer. */
  ghost predicate NewestThatFits(ms: seq<Message>, n: nat, rest: int, c: nat) {
    && n <= c <= |ms|
    && (Turns(ms[n..]) && c < |ms| ==> !ms[c].role.Tool?)
    && (c < |ms| ==> Tokens(ms[c..]) <= rest)
    && forall i :: n <= i < c && !ms[i].role.Tool? ==> Tokens(ms[i..]) > rest
  }

  /** A history `ms` is compacted to `r`: its first `n` messages and the longest recent part
      that fits into `rest`. */
  ghost predicate Shortened(ms: seq<Message>, n: nat, rest: int, c: nat, r: seq<Message>) {
    NewestThatFits(ms, n, rest, c) && r == ms[..n] + ms[c..]
  }

  /** A history over budget becomes its system prompt, the user turn right behind it if there
      is one, and the longest recent part that fits into the rest of the budget. */
  lemma CompactionKeepsNewest(ms: seq<Message>, budget: int) returns (c: nat)
    requires |ms| > 1 && 0 < budget < Tokens(ms)
    ensures var n := if ms[1].role.User? && ms[1].toolCalls == [] then 2 else 1;
      Shortened(ms, n, budget - Tokens(ms[..n]), c, Compacted(ms, budget))
  {
    var n := Sticky(ms);
    var rest := budget - Tokens(ms[..n]);
    if rest > 0 {
      c := Cut(ms, n, rest);
      OverBudget(ms, n, rest);
      DecisionShortens(ms, n, rest, Compact(ms, budget), Compacted(ms, budget));
    } else {
      c := |ms|;
      NothingFits(ms, n, rest);
    }
  }

  lemma DecisionShortens(ms: seq<Message>, n: nat, rest: int, d: Compaction, r: seq<Message>)
    requires n <= |ms| && rest > 0 && !d.Same? && d == Decide(ms, n, rest)
    requires r == if d.Prefix? then ms[..d.n] else d.kept
    ensures Shortened(ms, n, rest, Cut(ms, n, rest), r)
  {
    CutIsNewest(ms, n, rest);
    if Turns(ms[n..]) {
      CutAtTurn(ms, n, rest);
    }
    DecideByCut(ms, n, rest);
  }

  lemma NothingFits(ms: seq<Message>, n: nat, rest: int)
    requires n <= |ms| && rest <= 0
    ensures NewestThatFits(ms, n, rest, |ms|)
  {
    forall i | n <= i < |ms|
      ensures Tokens(ms[i..]) > rest
    {
      TokensSplit(ms, i, i + 1);
      TokensOfOne(ms, i);
    }
  }

  lemma CutAtTurn(ms: seq<Message>, n: nat, rest: int)
    requires n <= |ms| && rest >= 0 && Turns(ms[n..])
    ensures var c := Cut(ms, n, rest); c < |ms| ==> !ms[c].role.Tool?
  {
    CutAligned(ms, n, rest);
    if Cut(ms, n, rest) < |ms| {
      NoOrphanFirst(ms, Cut(ms, n, rest));
    }
  }

  lemma CutIsNewest(ms: seq<Message>, n: nat, rest: int)
    requires n <= |ms| && rest >= 0
    ensures var c := Cut(ms, n, rest);
      && n <= c <= |ms| && Tokens(ms[c..]) <= rest
      && forall i :: n <= i < c && !ms[i].role.Tool? ==> Tokens(ms[i..]) > rest
  {
    var c := Cut(ms, n, rest);
    CutFits(ms, n, rest);
    if c != n {
      CutIsMaximal(ms, n, rest);
      var gs := Groups(ms, n);
      var k := KeepFrom(gs, rest);
      var start := gs[k - 1].start;
      forall i | n <= i < c && !ms[i].role.Tool?
        ensures Tokens(ms[i..]) > rest
      {
        if i > start {
          InsideGroupIsTool(ms, n, k, i);
        }
        EarlierIsHeavier(ms, i, start, rest);
      }
    }
  }

  lemma EarlierIsHeavier(ms: seq<Message>, i: nat, j: nat, rest: int)
    requires i <= j <= |ms| && Tokens(ms[j..]) > rest
    ensures Tokens(ms[i..]) > rest
  {
    TokensSplit(ms, i, j);
  }

  lemma InsideGroupIsTool(ms: seq<Message>, n: nat, k: nat, i: nat)
    requires n <= |ms| && 0 < k <= |Groups(ms, n)|
    requires Groups(ms, n)[k - 1].start < i < StartOf(ms, Groups(ms, n), k)
    ensures i < |ms| && ms[i].role.Tool?
  {
    var gs := Groups(ms, n);
    GroupsSuffix(ms, n, k - 1);
    GroupsSuffix(ms, n, k);
    var start := gs[k - 1].start;
    assert gs[k - 1..][1..] == gs[k..];
    assert StartOf(ms, gs, k) == GroupEnd(ms, start);
  }
}
