/**
 The objects and the control flow of one remote session (digcore/server/session.go,
 session_handler.go): the session registry, the start handler and the run itself. The
 interleaving of many sessions is the subject of SessionSlots.dfy.
 */
module SessionRun {
  import opened Common
  import SessionSlots
  import SessionSteps

  datatype Kind = Inspect | Diagnose | Chat | OtherKind

  class RemoteSession {
    const sessionID: string
    const kind: Kind
    var cancelled: bool

    constructor (sessionID: string, kind: Kind)
      ensures this.sessionID == sessionID && this.kind == kind && !cancelled
    {
      this.sessionID := sessionID;
      this.kind := kind;
      cancelled := false;
    }
  }

  class SessionManager {
    var sessions: map<string, RemoteSession>

    constructor ()
      ensures sessions == map[]
    {
      sessions := map[];
    }

    ghost predicate Valid()
      reads this
    {
      forall k :: k in sessions ==> sessions[k].sessionID == k
    }

    method Add(s: RemoteSession) returns (added: bool)
      requires Valid()
      modifies this
      ensures Valid() && added == (s.sessionID !in old(sessions))
      ensures sessions == if added then old(sessions)[s.sessionID := s] else old(sessions)
    {
      if s.sessionID in sessions {
        return false;
      }
      sessions := sessions[s.sessionID := s];
      return true;
    }

    /** Unregisters by ID and cancels whoever was registered there. */
    method Remove(id: string)
      requires Valid()
      modifies this, if id in sessions then {sessions[id]} else {}
      ensures Valid() && sessions == old(sessions) - {id}
      ensures id in old(sessions) ==> old(sessions)[id].cancelled
    {
      if id in sessions {
        var s := sessions[id];
        sessions := sessions - {id};
        s.cancelled := true;
      }
    }

    method Get(id: string) returns (s: RemoteSession?)
      requires Valid()
      ensures s != null <==> id in sessions
      ensures s != null ==> s.sessionID == id && s in sessions.Values
    {
      s := if id in sessions then sessions[id] else null;
    }

    /** Empties the registry and cancels every session that was in it, and no other. */
    method CancelAll()
      requires Valid()
      modifies this, sessions.Values
      ensures Valid() && sessions == map[]
      ensures forall k :: k in old(sessions) ==> old(sessions)[k].cancelled
    {
      var snapshot := sessions;
      sessions := map[];
      var left := snapshot.Keys;
      while left != {}
        invariant left <= snapshot.Keys && sessions == map[]
        invariant forall k :: k in snapshot && k !in left ==> snapshot[k].cancelled
        decreases |left|
      {
        var k :| k in left;
        snapshot[k].cancelled := true;
        left := left - {k};
      }
    }
  }

  /** The shared semaphore: a channel with room for `cap` tokens. */
  class Limiter {
    const cap: nat
    var used: nat

    constructor (cap: nat)
      ensures this.cap == cap && used == 0
    {
      this.cap := cap;
      used := 0;
    }

    method TrySem() returns (ok: bool)
      modifies this
      ensures ok == (old(used) < cap) && used == old(used) + if ok then 1 else 0
    {
      if used < cap {
        used := used + 1;
        return true;
      }
      return false;
    }

    method ReleaseSem()
      requires used > 0
      modifies this
      ensures used == old(used) - 1
    {
      used := used - 1;
    }
  }

  // ---------------------------------------------------------------- session_start

  datatype StartPayload = StartPayload(sessionID: string, kind: Kind)

  /** What goes out on the connection. */
  datatype Msg =
    | Ack(ok: bool, error: string)
    | Out(delta: string, stage: string, done: bool, report: string)
    | Error(code: string)

  /** The sending side of a connection. */
  class Conn {
    var sent: seq<Msg>

    constructor ()
      ensures sent == []
    {
      sent := [];
    }

    method SendACK(ok: bool, error: string)
      modifies this
      ensures sent == old(sent) + [Ack(ok, error)]
    {
      sent := sent + [Ack(ok, error)];
    }

    method SendAll(msgs: seq<Msg>)
      modifies this
      ensures sent == old(sent) + msgs
    {
      sent := sent + msgs;
    }
  }

  /** Which engines exist. */
  datatype Engines = Engines(diagnose: bool, chat: bool)

  function UnavailableError(limited: bool, kind: Kind, engines: Engines): (e: string)
    ensures e == "" <==> limited && (kind.Chat? ==> engines.chat)
                         && (kind.Inspect? || kind.Diagnose? ==> engines.diagnose)
    ensures e != "" ==>
      e == if kind == Chat then "chat engine not available" else "diagnose engine not available"
  {
    if !limited then (if kind.Chat? then "chat engine not available" else "diagnose engine not available")
    else
      match kind
      case Chat => if engines.chat then "" else "chat engine not available"
      case OtherKind => ""
      case _ => if engines.diagnose then "" else "diagnose engine not available"
  }

  /** Everything a session_start needs to be accepted. */
  predicate Acceptable(payload: Option<StartPayload>, limited: bool, free: bool, ids: set<string>, engines: Engines) {
    && payload.Some? && payload.value.sessionID != ""
    && UnavailableError(limited, payload.value.kind, engines) == ""
    && free && payload.value.sessionID !in ids
  }

  /** Handles one session_start. Exactly one message goes out, an ACK; it is positive
      exactly when the session was registered, and then, and only then, one more slot is
      taken. */
  method HandleSessionStart(payload: Option<StartPayload>, limiter: Limiter?, manager: SessionManager,
                            engines: Engines, conn: Conn)
      returns (session: RemoteSession?)
    requires manager.Valid()
    modifies manager, limiter, conn
    ensures manager.Valid()
    ensures session != null <==>
      Acceptable(payload, limiter != null, limiter != null && old(limiter.used) < limiter.cap,
                 old(manager.sessions).Keys, engines)
    ensures |conn.sent| == |old(conn.sent)| + 1 && conn.sent[..|old(conn.sent)|] == old(conn.sent)
    ensures var ack := conn.sent[|old(conn.sent)|];
      ack.Ack? && (ack.ok <==> session != null) && (ack.ok <==> ack.error == "")
    ensures session != null ==>
      && fresh(session) && !session.cancelled
      && session.sessionID == payload.value.sessionID && session.kind == payload.value.kind
    ensures manager.sessions == if session != null then old(manager.sessions)[payload.value.sessionID := session]
                                else old(manager.sessions)
    ensures limiter != null ==> limiter.used == old(limiter.used) + if session != null then 1 else 0
  {
    session := null;
    if payload.None? {
      conn.SendACK(false, "invalid payload");
      return;
    }
    var p := payload.value;
    if p.sessionID == "" {
      conn.SendACK(false, "missing session_id");
      return;
    }
    var engineErr := UnavailableError(limiter != null, p.kind, engines);
    if engineErr != "" {
      conn.SendACK(false, engineErr);
      return;
    }
    var acquired := limiter.TrySem();
    if !acquired {
      conn.SendACK(false, "max concurrent sessions reached");
      return;
    }
    var sess := new RemoteSession(p.sessionID, p.kind);
    var added := manager.Add(sess);
    if !added {
      sess.cancelled := true;
      limiter.ReleaseSem();
      conn.SendACK(false, "duplicate session_id");
      return;
    }
    conn.SendACK(true, "");
    session := sess;
  }

  // ---------------------------------------------------------------- the run

  datatype Chunk = Chunk(delta: string, stage: string)

  /** How a diagnosis goes: the text it streams, and its report or an error. */
  datatype DiagnoseEnv = DiagnoseEnv(
    available: bool, plugin: string, streamed: seq<Chunk>, result: Option<string>, cancelled: bool)

  datatype TurnResult = Reply(text: string) | TurnFailed(msg: string, cancelled: bool) | TurnPanic

  datatype Turn = Turn(streamed: seq<Chunk>, result: TurnResult)

  /** How a chat goes: whether it can be opened, the message sent along, and the inputs
      that arrive before the context is cancelled. */
  datatype ChatEnv = ChatEnv(
    available: bool, cancelled: bool, openFails: bool, openCancelled: bool,
    first: Option<Turn>, inputs: seq<Turn>)

  /** Outputs that do not claim to be the last, and errors. */
  ghost predicate NoneDone(trace: seq<Msg>) {
    forall i :: 0 <= i < |trace| ==> trace[i].Error? || (trace[i].Out? && !trace[i].done)
  }

  /** One done=true output, and it is the last message. */
  ghost predicate Complete(trace: seq<Msg>) {
    && trace != [] && NoneDone(trace[..|trace| - 1])
    && trace[|trace| - 1].Out? && trace[|trace| - 1].done
  }

  function Failures(trace: seq<Msg>): (cs: seq<string>) {
    if trace == [] then []
    else
      var last := trace[|trace| - 1];
      var before := Failures(trace[..|trace| - 1]);
      if last.Error? then before + [last.code] else before
  }

  lemma FailuresSnoc(trace: seq<Msg>, m: Msg)
    ensures Failures(trace + [m]) == if m.Error? then Failures(trace) + [m.code] else Failures(trace)
  {
    assert (trace + [m])[..|trace|] == trace;
  }

  lemma CompleteTrace(trace: seq<Msg>, report: string)
    requires NoneDone(trace)
    ensures var r := trace + [Out("", "", true, report)];
      Complete(r) && Failures(r) == Failures(trace)
  {
    var last := Out("", "", true, report);
    FailuresSnoc(trace, last);
    assert (trace + [last])[..|trace|] == trace;
  }

  lemma FailuresOne(code: string)
    ensures Failures([Error(code)]) == [code]
  {
    FailuresSnoc([], Error(code));
    assert [] + [Error(code)] == [Error(code)];
  }

  function DiagnoseFailure(kind: Kind, d: DiagnoseEnv): (codes: seq<string>) {
    if !d.available then ["engine_unavailable"]
    else if kind.Inspect? && d.plugin == "" then ["missing_plugin"]
    else if d.result.None? && !d.cancelled then ["diagnose_failed"]
    else []
  }

  function ChatFailure(c: ChatEnv): (codes: seq<string>) {
    if !c.available then ["engine_unavailable"]
    else if !c.cancelled && c.openFails && !c.openCancelled then ["chat_init_failed"]
    else []
  }

  /** The errors a session reports: at most one, on the paths that promise one. */
  function ExpectedFailure(kind: Kind, cancelled: bool, d: DiagnoseEnv, c: ChatEnv): (codes: seq<string>)
    ensures |codes| <= 1
  {
    if cancelled then []
    else
      match kind
      case Chat => ChatFailure(c)
      case OtherKind => ["invalid_type"]
      case _ => DiagnoseFailure(kind, d)
  }

  /** The report a session delivers; empty when there is none. */
  function ExpectedReport(kind: Kind, cancelled: bool, d: DiagnoseEnv): (report: string) {
    if cancelled || kind.Chat? || kind.OtherKind? || !d.available || (kind.Inspect? && d.plugin == "") then ""
    else if d.result.Some? then d.result.value else ""
  }

  /** The messages that pass streamed text through, in order. */
  function Chunks(chunks: seq<Chunk>): (ms: seq<Msg>)
    ensures |ms| == |chunks|
    ensures forall i :: 0 <= i < |chunks| ==> ms[i] == Out(chunks[i].delta, chunks[i].stage, false, "")
  {
    seq(|chunks|, i requires 0 <= i < |chunks| => Out(chunks[i].delta, chunks[i].stage, false, ""))
  }

  method Stream(chunks: seq<Chunk>) returns (r: seq<Msg>)
    ensures r == Chunks(chunks)
  {
    r := [];
    for k := 0 to |chunks|
      invariant r == Chunks(chunks)[..k]
    {
      r := r + [Out(chunks[k].delta, chunks[k].stage, false, "")];
    }
  }

  /** Nothing but outputs that do not claim to be the last. */
  ghost predicate Progress(trace: seq<Msg>) {
    forall i :: 0 <= i < |trace| ==> trace[i].Out? && !trace[i].done
  }

  lemma {:induction false} ProgressHasNoFailures(trace: seq<Msg>)
    requires Progress(trace)
    ensures NoneDone(trace) && Failures(trace) == []
  {
    if trace != [] {
      ProgressHasNoFailures(trace[..|trace| - 1]);
    }
  }

  lemma ProgressJoin(a: seq<Msg>, b: seq<Msg>)
    requires Progress(a) && Progress(b)
    ensures Progress(a + b)
  {
  }

  /** What an inspection or diagnosis sends before the end. */
  function DiagnoseTrace(kind: Kind, d: DiagnoseEnv): (trace: seq<Msg>) {
    if !d.available then [Error("engine_unavailable")]
    else if kind.Inspect? && d.plugin == "" then [Error("missing_plugin")]
    else if d.result.None? && !d.cancelled then Chunks(d.streamed) + [Error("diagnose_failed")]
    else Chunks(d.streamed)
  }

  lemma DiagnoseTraceShape(kind: Kind, d: DiagnoseEnv)
    ensures NoneDone(DiagnoseTrace(kind, d)) && Failures(DiagnoseTrace(kind, d)) == DiagnoseFailure(kind, d)
  {
    FailuresOne("engine_unavailable");
    FailuresOne("missing_plugin");
    ProgressHasNoFailures(Chunks(d.streamed));
    FailuresSnoc(Chunks(d.streamed), Error("diagnose_failed"));
  }

  method RunInspectOrDiagnose(kind: Kind, d: DiagnoseEnv) returns (trace: seq<Msg>, report: string)
    requires kind.Inspect? || kind.Diagnose?
    ensures trace == DiagnoseTrace(kind, d) && report == ExpectedReport(kind, false, d)
    ensures NoneDone(trace) && Failures(trace) == DiagnoseFailure(kind, d)
  {
    DiagnoseTraceShape(kind, d);
    if !d.available {
      return [Error("engine_unavailable")], "";
    }
    if kind.Inspect? && d.plugin == "" {
      return [Error("missing_plugin")], "";
    }
    trace := Stream(d.streamed);
    if d.result.None? {
      if d.cancelled {
        return trace, "";
      }
      return trace + [Error("diagnose_failed")], "";
    }
    return trace, d.result.value;
  }

  /** The message that ends a turn. */
  function Closing(result: TurnResult): (m: Msg) {
    match result
    case Reply(text) => Out(text, "answer", false, "")
    case TurnFailed(msg, _) => Out(msg, "error", false, "")
    case TurnPanic => Out("internal error", "error", false, "")
  }

  predicate Cancels(turn: Turn) {
    turn.result.TurnFailed? && turn.result.cancelled
  }

  /** What one turn sends: the streamed text and, unless it was cancelled, its end. */
  function TurnOutput(turn: Turn): (ms: seq<Msg>) {
    if Cancels(turn) then Chunks(turn.streamed) else Chunks(turn.streamed) + [Closing(turn.result)]
  }

  lemma TurnIsProgress(turn: Turn)
    ensures Progress(TurnOutput(turn))
  {
  }

  /** One chat turn; a panic inside it is recovered and reported as output. */
  method ProcessTurn(trace: seq<Msg>, turn: Turn) returns (r: seq<Msg>, cancelled: bool)
    ensures cancelled == Cancels(turn) && r == trace + TurnOutput(turn)
  {
    r := Stream(turn.streamed);
    r := trace + r;
    match turn.result
    case TurnPanic =>
      return r + [Out("internal error", "error", false, "")], false;
    case TurnFailed(msg, wasCancelled) =>
      if wasCancelled {
        return r, true;
      }
      return r + [Out(msg, "error", false, "")], false;
    case Reply(text) =>
      return r + [Out(text, "answer", false, "")], false;
  }

  /** What a chat sends for turns in order, up to the first cancelled one. */
  datatype Heard = Heard(trace: seq<Msg>, stopped: bool)

  function Hear(turns: seq<Turn>): (h: Heard) {
    if turns == [] then Heard([], false)
    else
      var before := Hear(turns[..|turns| - 1]);
      var last := turns[|turns| - 1];
      if before.stopped then before else Heard(before.trace + TurnOutput(last), Cancels(last))
  }

  lemma {:induction false} StoppedStays(turns: seq<Turn>, n: nat)
    requires n <= |turns| && Hear(turns[..n]).stopped
    ensures Hear(turns) == Hear(turns[..n])
    decreases |turns| - n
  {
    if n < |turns| {
      assert turns[..n + 1][..n] == turns[..n];
      StoppedStays(turns, n + 1);
    } else {
      assert turns[..n] == turns;
    }
  }

  /** The message sent along with the start, if any, and the inputs after it. */
  function TurnsOf(c: ChatEnv): (turns: seq<Turn>) {
    if c.first.Some? then [c.first.value] + c.inputs else c.inputs
  }

  /** What a chat sends before the end. */
  function ChatTrace(c: ChatEnv): (trace: seq<Msg>) {
    if !c.available then [Error("engine_unavailable")]
    else if c.cancelled then []
    else if !c.openFails then Hear(TurnsOf(c)).trace
    else if c.openCancelled then []
    else [Error("chat_init_failed")]
  }

  lemma {:induction false} HeardIsProgress(turns: seq<Turn>)
    ensures Progress(Hear(turns).trace)
  {
    if turns != [] {
      var n := |turns| - 1;
      HeardIsProgress(turns[..n]);
      TurnIsProgress(turns[n]);
      ProgressJoin(Hear(turns[..n]).trace, TurnOutput(turns[n]));
    }
  }

  lemma ChatTraceShape(c: ChatEnv)
    ensures NoneDone(ChatTrace(c)) && Failures(ChatTrace(c)) == ChatFailure(c)
  {
    FailuresOne("engine_unavailable");
    FailuresOne("chat_init_failed");
    HeardIsProgress(TurnsOf(c));
    ProgressHasNoFailures(Hear(TurnsOf(c)).trace);
  }

  /** The turns are answered in order, up to the first cancelled one. */
  method RunChat(c: ChatEnv) returns (trace: seq<Msg>)
    ensures trace == ChatTrace(c)
    ensures NoneDone(trace) && Failures(trace) == ChatFailure(c)
  {
    ChatTraceShape(c);
    if !c.available {
      return [Error("engine_unavailable")];
    }
    if c.cancelled {
      return [];
    }
    if c.openFails {
      if c.openCancelled {
        return [];
      }
      return [Error("chat_init_failed")];
    }
    trace := ProcessTurns(TurnsOf(c));
  }

  /** The first message, then the inputs as they arrive. */
  method ProcessTurns(turns: seq<Turn>) returns (trace: seq<Msg>)
    ensures trace == Hear(turns).trace
  {
    trace := [];
    for i := 0 to |turns|
      invariant Heard(trace, false) == Hear(turns[..i])
    {
      var stop;
      assert turns[..i + 1][..i] == turns[..i];
      trace, stop := ProcessTurn(trace, turns[i]);
      if stop {
        StoppedStays(turns, i + 1);
        return;
      }
    }
    assert turns[..|turns|] == turns;
  }

  /** What a session sends before its last message. */
  function SessionTrace(kind: Kind, cancelled: bool, d: DiagnoseEnv, c: ChatEnv): (trace: seq<Msg>) {
    if cancelled then []
    else
      match kind
      case Chat => ChatTrace(c)
      case OtherKind => [Error("invalid_type")]
      case _ => DiagnoseTrace(kind, d)
  }

  /** All that a session sends: its messages and the done=true output with the report. */
  function WholeRun(kind: Kind, cancelled: bool, d: DiagnoseEnv, c: ChatEnv): (run: seq<Msg>) {
    SessionTrace(kind, cancelled, d, c) + [Out("", "", true, ExpectedReport(kind, cancelled, d))]
  }

  // ---------------------------------------------------------------- the messages, written out

  /** What is sent before the end, by the requested type: nothing once cancelled, an error for
      an unknown type, the chat or the diagnosis otherwise. */
  lemma DispatchedByType(cancelled: bool, d: DiagnoseEnv, c: ChatEnv)
    ensures SessionTrace(Chat, false, d, c) == ChatTrace(c)
    ensures SessionTrace(Inspect, false, d, c) == DiagnoseTrace(Inspect, d)
    ensures SessionTrace(Diagnose, false, d, c) == DiagnoseTrace(Diagnose, d)
    ensures SessionTrace(OtherKind, false, d, c) == [Error("invalid_type")]
    ensures forall kind :: SessionTrace(kind, true, d, c) == []
  {
  }

  /** A diagnosis passes on every streamed chunk, in order and unchanged, and adds one error
      exactly when it failed without being cancelled; what it cannot start is one error. */
  lemma DiagnosisSays(kind: Kind, d: DiagnoseEnv)
    ensures var trace := DiagnoseTrace(kind, d);
      if !d.available then trace == [Error("engine_unavailable")]
      else if kind == Inspect && d.plugin == "" then trace == [Error("missing_plugin")]
      else
        var failed := d.result == None && !d.cancelled;
        && |trace| == |d.streamed| + (if failed then 1 else 0)
        && (failed ==> trace[|d.streamed|] == Error("diagnose_failed"))
        && forall i :: 0 <= i < |d.streamed| ==>
             trace[i] == Out(d.streamed[i].delta, d.streamed[i].stage, false, "")
  {
  }

  /** The report goes out exactly when a diagnosis ran and produced one. */
  lemma ReportSays(kind: Kind, cancelled: bool, d: DiagnoseEnv)
    ensures var ran := !cancelled && d.available && (kind == Diagnose || (kind == Inspect && d.plugin != ""));
      ExpectedReport(kind, cancelled, d) == if ran && d.result != None then d.result.value else ""
  {
  }

  /** A turn passes on its chunks and ends with the reply, the error, or the notice of a
      recovered panic; a cancelled one ends without. */
  lemma TurnSays(turn: Turn)
    ensures var ms := TurnOutput(turn);
      var n := |turn.streamed|;
      && |ms| == n + (if turn.result.TurnFailed? && turn.result.cancelled then 0 else 1)
      && (forall i :: 0 <= i < n ==> ms[i] == Out(turn.streamed[i].delta, turn.streamed[i].stage, false, ""))
      && (turn.result.Reply? ==> ms[n] == Out(turn.result.text, "answer", false, ""))
      && (turn.result.TurnFailed? && !turn.result.cancelled ==> ms[n] == Out(turn.result.msg, "error", false, ""))
      && (turn.result.TurnPanic? ==> ms[n] == Out("internal error", "error", false, ""))
  {
  }

  function Outputs(turns: seq<Turn>): (parts: seq<seq<Msg>>) {
    seq(|turns|, i requires 0 <= i < |turns| => TurnOutput(turns[i]))
  }

  /** A chat sends the outputs of its turns one after the other, up to and with the first one
      that is cancelled. */
  lemma {:induction false} ChatSays(turns: seq<Turn>, n: nat)
    requires n <= |turns| && (forall i :: 0 <= i < n - 1 ==> !Cancels(turns[i]))
    requires n == |turns| || (n > 0 && Cancels(turns[n - 1]))
    ensures Hear(turns).trace == Flatten(Outputs(turns[..n]))
  {
    HearsAll(turns[..n]);
    if n < |turns| {
      assert turns[..n][n - 1] == turns[n - 1];
      StoppedStays(turns, n);
    } else {
      assert turns[..n] == turns;
    }
  }

  lemma {:induction false} HearsAll(turns: seq<Turn>)
    requires forall i :: 0 <= i < |turns| - 1 ==> !Cancels(turns[i])
    ensures Hear(turns).trace == Flatten(Outputs(turns))
    ensures Hear(turns).stopped <==> turns != [] && Cancels(turns[|turns| - 1])
  {
    if turns != [] {
      var n := |turns| - 1;
      HearsAll(turns[..n]);
      assert Outputs(turns)[..n] == Outputs(turns[..n]);
      assert n > 0 ==> turns[..n][n - 1] == turns[n - 1];
    }
  }

  /** The turns of a chat: the message sent along with the start first, then the inputs. */
  lemma ChatTurns(c: ChatEnv)
    requires c.available && !c.cancelled && !c.openFails
    ensures ChatTrace(c) == Hear(if c.first == None then c.inputs else [c.first.value] + c.inputs).trace
  {
  }

  /** Every accepted run, of any kind and on every error or cancel path, sends exactly one
      done=true output, as its last message; it carries the report exactly when there is
      one; and an error message is sent exactly on the paths that promise one. */
  method RunRemoteSession(kind: Kind, cancelled: bool, d: DiagnoseEnv, c: ChatEnv) returns (trace: seq<Msg>)
    ensures Complete(trace)
    ensures trace[|trace| - 1] == Out("", "", true, ExpectedReport(kind, cancelled, d))
    ensures Failures(trace) == ExpectedFailure(kind, cancelled, d, c)
    ensures trace[..|trace| - 1] == SessionTrace(kind, cancelled, d, c)
  {
    trace := [];
    var doneSent := false;
    if !cancelled {
      match kind
      case Chat =>
        trace := RunChat(c);
      case OtherKind =>
        FailuresOne("invalid_type");
        trace := [Error("invalid_type")];
      case _ =>
        var report;
        trace, report := RunInspectOrDiagnose(kind, d);
        if report != "" {
          CompleteTrace(trace, report);
          trace := trace + [Out("", "", true, report)];
          doneSent := true;
        }
    }
    if !doneSent {
      CompleteTrace(trace, "");
      trace := trace + [Out("", "", true, "")];
    }
  }

  // ---------------------------------------------------------------- the session as a whole

  /** What the interleaving machine sees of a task's messages; errors are not part of it. */
  function OnWire(g: nat, trace: seq<Msg>): (ws: seq<SessionSlots.Wire>) {
    if trace == [] then []
    else
      var before := OnWire(g, trace[..|trace| - 1]);
      var last := trace[|trace| - 1];
      if last.Ack? then before + [SessionSlots.Ack(g, last.ok)]
      else if last.Out? then before + [SessionSlots.Output(g, last.done)]
      else before
  }

  lemma RefusalIsRefused(g: nat, error: string)
    ensures SessionSlots.Refused(OnWire(g, [Ack(false, error)]))
  {
    assert [Ack(false, error)][..0] == [];
  }

  lemma {:induction false} AcceptedTalks(g: nat, trace: seq<Msg>)
    requires trace != [] && trace[0].Ack? && trace[0].ok && NoneDone(trace[1..])
    ensures SessionSlots.Talking(OnWire(g, trace))
  {
    var n := |trace| - 1;
    if n == 0 {
      assert trace[..0] == [];
    } else {
      assert trace[n] == trace[1..][n - 1];
      assert trace[..n][1..] == trace[1..][..n - 1];
      AcceptedTalks(g, trace[..n]);
      if trace[n].Out? {
        var ws := OnWire(g, trace[..n]);
        assert OnWire(g, trace)[..|ws|] == ws;
        SessionSlots.KeepTalking(ws, OnWire(g, trace));
      }
    }
  }

  /** A positive ACK followed by a complete run is a finished session. */
  lemma AcceptedRunIsFinished(g: nat, run: seq<Msg>, error: string)
    requires Complete(run)
    ensures SessionSlots.Finished(OnWire(g, [Ack(true, error)] + run))
  {
    var all := [Ack(true, error)] + run;
    var n := |all| - 1;
    assert all[..n][1..] == run[..n - 1];
    AcceptedTalks(g, all[..n]);
    var ws := OnWire(g, all[..n]);
    assert OnWire(g, all)[..|ws|] == ws;
  }

  /** The objects show the machine's slots and, for connection `cn`, its session map. */
  ghost predicate Mirrors(s: SessionSlots.State, cn: nat, limiter: Limiter, manager: SessionManager)
    reads limiter, manager
  {
    && s.cap == limiter.cap && s.slots == limiter.used
    && forall id :: (cn, id) in s.sessions <==> id in manager.sessions
  }

  function IdOf(payload: Option<StartPayload>): (id: string) {
    if payload.Some? then payload.value.sessionID else ""
  }

  predicate Usable(payload: Option<StartPayload>, engines: Engines) {
    && payload.Some? && payload.value.sessionID != ""
    && UnavailableError(true, payload.value.kind, engines) == ""
  }

  /** The start handler takes the machine's steps for one session_start: Start; Register and
      AckYes; or Register, ReleaseRejected and AckNo. */
  method StartOnMachine(payload: Option<StartPayload>, limiter: Limiter, manager: SessionManager, engines: Engines,
                        conn: Conn, ghost s: SessionSlots.State, ghost cn: nat, ghost g: nat)
      returns (session: RemoteSession?, ghost ack: Msg, ghost steps: seq<SessionSlots.Step>,
               ghost t: SessionSlots.State)
    requires manager.Valid() && Mirrors(s, cn, limiter, manager) && g !in s.tasks
    modifies manager, limiter, conn
    ensures manager.Valid() && Mirrors(t, cn, limiter, manager)
    ensures session != null <==> SessionSteps.Accepts(s, (cn, IdOf(payload)), Usable(payload, engines))
    ensures SessionSteps.Takes(s, steps, t) && SessionSteps.ForStart(steps, g, session != null)
    ensures SessionSteps.AfterStart(s, t, g, (cn, IdOf(payload)), session != null)
    ensures conn.sent == old(conn.sent) + [ack] && ack.Ack? && ack.ok == (session != null)
    ensures session != null ==>
      fresh(session) && session.sessionID == IdOf(payload) && payload.Some? && session.kind == payload.value.kind
    ensures manager.sessions == if session != null then old(manager.sessions)[IdOf(payload) := session]
                                else old(manager.sessions)
    ensures limiter.used == old(limiter.used) + if session != null then 1 else 0
  {
    steps, t := SessionSteps.StartTakes(s, g, (cn, IdOf(payload)), Usable(payload, engines));
    session := HandleSessionStart(payload, limiter, manager, engines, conn);
    ack := conn.sent[|old(conn.sent)|];
  }

  lemma {:induction false} ProgressOnWire(g: nat, trace: seq<Msg>)
    requires NoneDone(trace)
    ensures SessionSteps.Progressing(OnWire(g, trace), g)
  {
    if trace != [] {
      var n := |trace| - 1;
      ProgressOnWire(g, trace[..n]);
    }
  }

  /** One session_start by itself, to the end: it is refused, or acknowledged, run and
      finished; afterwards the registry is as before and no slot is missing. Every effect is
      a step of the interleaving machine, and what was sent is what those steps send. */
  method ServeSession(payload: Option<StartPayload>, limiter: Limiter, manager: SessionManager, engines: Engines,
                      conn: Conn, cancelled: bool, d: DiagnoseEnv, c: ChatEnv,
                      ghost s: SessionSlots.State, ghost cn: nat, ghost g: nat)
      returns (accepted: bool, ghost sent: seq<Msg>, ghost steps: seq<SessionSlots.Step>, ghost t: SessionSlots.State)
    requires manager.Valid() && Mirrors(s, cn, limiter, manager) && g !in s.tasks
    modifies manager, limiter, conn
    ensures manager.Valid() && manager.sessions == old(manager.sessions) && limiter.used == old(limiter.used)
    ensures accepted == SessionSteps.Accepts(s, (cn, IdOf(payload)), Usable(payload, engines))
    ensures conn.sent == old(conn.sent) + sent && Answered(accepted, OnWire(g, sent))
    ensures accepted ==>
      payload.Some? && sent != [] && sent[1..] == WholeRun(payload.value.kind, cancelled, d, c)
    ensures SessionSteps.Takes(s, steps, t) && t.wire == s.wire + OnWire(g, sent)
    ensures Mirrors(t, cn, limiter, manager)
  {
    var session;
    ghost var ack;
    session, ack, steps, t := StartOnMachine(payload, limiter, manager, engines, conn, s, cn, g);
    accepted := session != null;
    sent := [ack];
    if !accepted {
      RefusalIsAnswer(g, ack);
      return;
    }
    AddThenRemove(old(manager.sessions), IdOf(payload), session);
    sent, steps, t := ServeAccepted(session, limiter, manager, conn, cancelled, d, c, s, steps, t, cn, g, ack);
  }

  /** The accepted case, once the ACK is out. */
  method ServeAccepted(session: RemoteSession, limiter: Limiter, manager: SessionManager, conn: Conn,
                       cancelled: bool, d: DiagnoseEnv, c: ChatEnv,
                       ghost s: SessionSlots.State, ghost first: seq<SessionSlots.Step>, ghost t: SessionSlots.State,
                       ghost cn: nat, ghost g: nat, ghost ack: Msg)
      returns (ghost sent: seq<Msg>, ghost steps: seq<SessionSlots.Step>, ghost end: SessionSlots.State)
    requires manager.Valid() && Mirrors(t, cn, limiter, manager) && limiter.used > 0
    requires SessionSlots.InPhase(t, g, SessionSlots.Running) && SessionSlots.KeyOf(t, g) == (cn, session.sessionID)
    requires SessionSteps.Takes(s, first, t) && t.wire == s.wire + [SessionSlots.Ack(g, true)]
    requires ack.Ack? && ack.ok && conn.sent != [] && conn.sent[|conn.sent| - 1] == ack
    modifies manager, limiter, conn, if session.sessionID in manager.sessions
                                     then {manager.sessions[session.sessionID]} else {}
    ensures manager.Valid() && manager.sessions == old(manager.sessions) - {session.sessionID}
    ensures limiter.used == old(limiter.used) - 1
    ensures conn.sent == old(conn.sent)[..|old(conn.sent)| - 1] + sent && Answered(true, OnWire(g, sent))
    ensures sent != [] && sent[1..] == WholeRun(session.kind, cancelled, d, c)
    ensures SessionSteps.Takes(s, steps, end) && end.wire == s.wire + OnWire(g, sent)
    ensures Mirrors(end, cn, limiter, manager)
  {
    ghost var more;
    var run;
    run, more, end := RunGoroutine(session, limiter, manager, conn, cancelled, d, c, t, cn, g);
    sent, steps := SessionSent(s, first, t, more, end, g, old(conn.sent), run);
  }

  lemma SessionSent(s: SessionSlots.State, first: seq<SessionSlots.Step>, t: SessionSlots.State,
                    more: seq<SessionSlots.Step>, end: SessionSlots.State, g: nat, before: seq<Msg>, run: seq<Msg>)
      returns (sent: seq<Msg>, steps: seq<SessionSlots.Step>)
    requires before != [] && before[|before| - 1].Ack? && before[|before| - 1].ok && Complete(run)
    requires SessionSteps.Takes(s, first, t) && SessionSteps.Takes(t, more, end)
    requires t.wire == s.wire + [SessionSlots.Ack(g, true)] && end.wire == t.wire + OnWire(g, run)
    ensures sent != [] && sent[1..] == run && before + run == before[..|before| - 1] + sent
    ensures Answered(true, OnWire(g, sent)) && end.wire == s.wire + OnWire(g, sent)
    ensures SessionSteps.Takes(s, steps, end)
  {
    var ack := before[|before| - 1];
    SessionIsAnswer(s, t, end, g, ack, run);
    SessionSteps.TakesJoin(s, first, t, more, end);
    sent, steps := [ack] + run, first + more;
  }

  lemma AddThenRemove<V>(m: map<string, V>, k: string, v: V)
    requires k !in m
    ensures m[k := v] - {k} == m
  {
  }

  /** A finished session if it was accepted, a refusal if not. */
  predicate Answered(accepted: bool, ws: seq<SessionSlots.Wire>) {
    if accepted then SessionSlots.Finished(ws) else SessionSlots.Refused(ws)
  }

  lemma RefusalIsAnswer(g: nat, ack: Msg)
    requires ack.Ack? && !ack.ok
    ensures Answered(false, OnWire(g, [ack])) && OnWire(g, [ack]) == [SessionSlots.Ack(g, false)]
  {
    RefusalIsRefused(g, ack.error);
    assert [ack][..0] == [];
  }

  lemma SessionIsAnswer(s: SessionSlots.State, t: SessionSlots.State, end: SessionSlots.State, g: nat, ack: Msg,
                        run: seq<Msg>)
    requires ack.Ack? && ack.ok && Complete(run)
    requires t.wire == s.wire + [SessionSlots.Ack(g, true)] && end.wire == t.wire + OnWire(g, run)
    ensures Answered(true, OnWire(g, [ack] + run)) && end.wire == s.wire + OnWire(g, [ack] + run)
    ensures ([ack] + run)[1..] == run
  {
    AcceptedRunIsFinished(g, run, ack.error);
    WholeTrace(s, t, end, g, ack.error, run);
  }

  /** The goroutine of an accepted session: the run, then the deferred removal by ID and the
      release of the slot, step by step as the machine takes them. */
  method RunGoroutine(session: RemoteSession, limiter: Limiter, manager: SessionManager, conn: Conn,
                      cancelled: bool, d: DiagnoseEnv, c: ChatEnv,
                      ghost s: SessionSlots.State, ghost cn: nat, ghost g: nat)
      returns (run: seq<Msg>, ghost steps: seq<SessionSlots.Step>, ghost t: SessionSlots.State)
    requires manager.Valid() && Mirrors(s, cn, limiter, manager) && limiter.used > 0
    requires SessionSlots.InPhase(s, g, SessionSlots.Running) && SessionSlots.KeyOf(s, g) == (cn, session.sessionID)
    modifies manager, limiter, conn, if session.sessionID in manager.sessions
                                     then {manager.sessions[session.sessionID]} else {}
    ensures conn.sent == old(conn.sent) + run && Complete(run)
    ensures run == WholeRun(session.kind, cancelled, d, c)
    ensures manager.Valid() && manager.sessions == old(manager.sessions) - {session.sessionID}
    ensures limiter.used == old(limiter.used) - 1
    ensures SessionSteps.Takes(s, steps, t) && Mirrors(t, cn, limiter, manager)
    ensures t.wire == s.wire + OnWire(g, run)
  {
    run := RunRemoteSession(session.kind, cancelled, d, c);
    assert run == run[..|run| - 1] + [run[|run| - 1]];
    conn.SendAll(run);
    steps, t := RunOnMachine(s, g, run);
    manager.Remove(session.sessionID);
    limiter.ReleaseSem();
  }

  /** A complete run takes the machine from the ACK to the released slot. */
  lemma RunOnMachine(t: SessionSlots.State, g: nat, run: seq<Msg>)
      returns (steps: seq<SessionSlots.Step>, end: SessionSlots.State)
    requires SessionSlots.InPhase(t, g, SessionSlots.Running) && Complete(run)
    ensures SessionSteps.Takes(t, steps, end) && end.cap == t.cap && end.slots == t.slots - 1
    ensures end.sessions == t.sessions - {SessionSlots.KeyOf(t, g)} && end.wire == t.wire + OnWire(g, run)
  {
    var ws := OnWire(g, run[..|run| - 1]);
    ProgressOnWire(g, run[..|run| - 1]);
    steps, end := SessionSteps.RunTakes(t, g, ws);
    assert OnWire(g, run) == ws + [SessionSlots.Output(g, true)];
    assert t.wire + ws + [SessionSlots.Output(g, true)] == t.wire + (ws + [SessionSlots.Output(g, true)]);
  }

  lemma {:induction false} OnWireJoin(g: nat, a: seq<Msg>, b: seq<Msg>)
    ensures OnWire(g, a + b) == OnWire(g, a) + OnWire(g, b)
    decreases |b|
  {
    if b == [] {
      assert a + b == a;
    } else {
      var n := |b| - 1;
      OnWireJoin(g, a, b[..n]);
      assert (a + b)[..|a| + n] == a + b[..n];
    }
  }

  lemma WholeTrace(s: SessionSlots.State, t: SessionSlots.State, end: SessionSlots.State, g: nat, error: string,
                   run: seq<Msg>)
    requires t.wire == s.wire + [SessionSlots.Ack(g, true)] && end.wire == t.wire + OnWire(g, run)
    ensures end.wire == s.wire + OnWire(g, [Ack(true, error)] + run)
  {
    OnWireJoin(g, [Ack(true, error)], run);
    assert [Ack(true, error)][..0] == [];
    assert OnWire(g, [Ack(true, error)]) == [SessionSlots.Ack(g, true)];
  }
}
