/**
 * The worker's session loop as a step function: executor events, long-poll replies
 * and timers arrive in any order; every request, signal and command it issues is
 * recorded in `log`.
 */
module Worker {
  import opened Prelude

  type Token = string
  type Payload = string

  // ---- What arrives ----

  /** A scheduler command. A fed turn carries its parts only when they can be extracted. */
  datatype Action = FeedTurn(parts: Option<Payload>) | StopTurn | Cancel | Assign

  datatype Reply = Command(token: Token, action: Action) | NoAction | Failed

  datatype Input =
    | TurnComplete(output: Option<Payload>, agentSession: Option<string>, settled: bool, reply: Reply)
    | Init(sessionId: string)
    | Accepted(ackReply: Reply)
    | MessageEvent(payload: Payload, ephemeral: bool)
    | ProcessDied(diedSession: Option<string>)
    | Closed
    | PollDone(pollReply: Reply)
    | EscalationTimer
    | SilenceTimer

  // ---- What is issued ----

  datatype ExecutorState = Running | Idle | Crashed

  datatype TurnMessage = TurnMessage(msgSeq: int, payload: Payload)

  datatype AgentCommand = Prompt(parts: Payload) | StopAgentTurn | CancelAgent | StopAgent

  datatype Signal = SigInt | SigKill

  datatype Entry =
    | Synced(ack: Option<Token>, report: Option<ExecutorState>, messages: Option<seq<TurnMessage>>)
    | Polled(ack: Option<Token>, report: Option<ExecutorState>)
    | Forwarded(message: TurnMessage, ephemeral: bool)
    | Escalated(signal: Signal)
    | Silenced
    | Sent(command: AgentCommand)
    | Armed
    | Started
    | FeedAccepted(token: Token)
    | Delivered(token: Token, action: Action)

  /** The tokens waiting to be acknowledged, and whether a cancel is outstanding. */
  datatype Held = Held(
    lastAck: Option<Token>,
    cancelPending: bool,
    pendingStop: Option<Token>,
    pendingFeed: Option<Token>)

  datatype State = State(
    agentSession: Option<string>,
    msgSeq: int,
    buffer: seq<TurnMessage>,
    held: Held,
    running: bool,
    armed: bool,
    stage: nat,
    silence: bool,
    polling: bool,
    done: bool,
    hasPid: bool,
    log: seq<Entry>)

  function Start(initialToken: Token, agentSession: Option<string>, nextMsgSeq: int, hasPid: bool): State {
    State(agentSession, nextMsgSeq, [], Held(Some(initialToken), false, None, None), true, false, 0, false, false,
        false, hasPid, [])
  }

  // ---- The step function ----

  function Emit(s: State, e: Entry): State {
    s.(log := s.log + [e])
  }

  function ReportOf(s: State): Option<ExecutorState> {
    Some(if s.running then Running else Idle)
  }

  function Poll(s: State, ack: Option<Token>, report: Option<ExecutorState>): State {
    Emit(s.(polling := true), Polled(ack, report))
  }

  /** The acknowledgement a poll carries when no command is outstanding. */
  function AckForPoll(s: State): Option<Token> {
    if s.held.cancelPending || s.held.pendingStop.Some? || s.held.pendingFeed.Some? then None else s.held.lastAck
  }

  /** What a command does to the waiting tokens. */
  function HandleHeld(h: Held, running: bool, token: Token, action: Action): Held {
    match action
    case FeedTurn(parts) => if parts.None? then h else h.(pendingFeed := Some(token))
    case StopTurn =>
      if running then h.(pendingFeed := None, pendingStop := Some(token))
      else h.(pendingFeed := None, lastAck := Some(token))
    case Cancel => Held(Some(token), true, None, None)
    case Assign => h
  }

  /** The command forwarded to the executor, if any. */
  function Forward(s: State, token: Token, action: Action): Option<AgentCommand> {
    match action
    case FeedTurn(parts) =>
      if parts.None? || s.held.pendingFeed == Some(token) then None else Some(Prompt(parts.value))
    case StopTurn => if s.running then Some(StopAgentTurn) else None
    case Cancel => Some(CancelAgent)
    case Assign => None
  }

  function Handle(s: State, token: Token, action: Action): State {
    var command := Forward(s, token, action);
    s.(held := HandleHeld(s.held, s.running, token, action),
       running := s.running || (action.FeedTurn? && command.Some?),
       log := s.log + [Delivered(token, action)] + if command.Some? then [Sent(command.value)] else [])
  }

  /** Arm the escalation timer when a stop or cancel is outstanding. */
  function Arm(s: State): State {
    if s.held.cancelPending || s.held.pendingStop.Some? then Emit(s.(armed := true, stage := 0), Armed) else s
  }

  /** The acknowledgement a turn-ending report carries, and the state without it. */
  function TakeAck(s: State): (Option<Token>, State) {
    if !s.held.cancelPending && s.held.pendingStop.Some?
    then (s.held.pendingStop, s.(held := s.held.(pendingStop := None)))
    else (s.held.lastAck, s.(held := s.held.(lastAck := None)))
  }

  /** Whether a completed turn's output becomes a message of its own. */
  predicate Synthesizes(s: State, output: Option<Payload>) {
    s.buffer == [] && output.Some?
  }

  /** The messages a completed turn reports: those buffered, or one synthesized from the output. */
  function TurnMessages(s: State, output: Option<Payload>): seq<TurnMessage> {
    if Synthesizes(s, output) then [TurnMessage(s.msgSeq + 1, output.value)] else s.buffer
  }

  /** The state once a completed turn's messages have been taken. */
  function TurnBooked(s: State, output: Option<Payload>, agentSession: Option<string>, settled: bool): State {
    s.(silence := false, agentSession := if agentSession.Some? then agentSession else s.agentSession,
       msgSeq := if Synthesizes(s, output) then s.msgSeq + 1 else s.msgSeq,
       buffer := [], polling := false, running := s.running && !settled)
  }

  /** The turn's result is reported. */
  function ReportTurn(s: State, output: Option<Payload>, agentSession: Option<string>, settled: bool): State {
    var (ack, s2) := TakeAck(TurnBooked(s, output, agentSession, settled));
    Emit(s2, Synced(ack, Some(if settled then Idle else Running), Some(TurnMessages(s, output))))
  }

  /** The report has been answered: no cancel is outstanding and the timer is off. */
  function Answered(s: State): State {
    s.(held := s.held.(cancelPending := false), armed := false, stage := 0)
  }

  /** What follows the reply to a turn report. */
  function ResumeTurn(s: State, reply: Reply): State {
    if reply.Failed? then Emit(s.(done := true), Sent(StopAgent))
    else
      var s1 := Answered(s);
      if s.held.cancelPending then s1.(done := true)
      else if reply.NoAction? then Poll(s1, s1.held.lastAck, None)
      else
        var h := Arm(Handle(s1, reply.token, reply.action));
        Poll(h, if h.held.pendingStop.Some? || h.held.pendingFeed.Some? then None else h.held.lastAck, None)
  }

  function OnTurnComplete(s: State, output: Option<Payload>, agentSession: Option<string>, settled: bool, reply: Reply)
    : State
  {
    var r := ResumeTurn(ReportTurn(s, output, agentSession, settled), reply);
    if settled || r.done then r else r.(silence := true)
  }

  function OnInit(s: State, sessionId: string): State {
    var s1 := Emit(s.(silence := false, agentSession := Some(sessionId), running := true), Started);
    if s.polling then s1 else Poll(s1, s1.held.lastAck, Some(Running))
  }

  /** The pending feed has been accepted, and its token acknowledged. */
  function FeedAcked(s: State, token: Token): State {
    Emit(Emit(s.(silence := false, held := s.held.(pendingFeed := None), polling := false), FeedAccepted(token)),
      Synced(Some(token), Some(Running), None))
  }

  function OnAccepted(s: State, reply: Reply): State {
    if s.held.pendingFeed.None? then s.(silence := false)
    else
      var token := s.held.pendingFeed.value;
      var s2 := FeedAcked(s, token);
      var s3 := match reply
                case Command(t, action) => Arm(Handle(s2, t, action))
                case NoAction => s2
                case Failed => s2.(held := s2.held.(lastAck := Some(token)));
      Poll(s3, AckForPoll(s3), ReportOf(s3))
  }

  function OnMessage(s: State, payload: Payload, ephemeral: bool): State {
    var m := TurnMessage(s.msgSeq + 1, payload);
    Emit(s.(silence := false, msgSeq := s.msgSeq + 1, buffer := if ephemeral then s.buffer else s.buffer + [m]),
         Forwarded(m, ephemeral))
  }

  /** A dead executor leaves no feed pending and no message buffered. */
  function Abandoned(s: State, agentSession: Option<string>): State {
    s.(silence := false, agentSession := if agentSession.Some? then agentSession else s.agentSession,
       held := s.held.(pendingFeed := None), buffer := [])
  }

  function OnProcessDied(s: State, agentSession: Option<string>): State {
    var (ack, s2) := TakeAck(Abandoned(s, agentSession));
    Emit(s2.(done := true), Synced(ack, Some(Crashed), Some(s.buffer)))
  }

  function OnClosed(s: State): State {
    var (ack, s1) := TakeAck(s);
    if ack.Some? then Emit(s1.(done := true), Synced(ack, None, None)) else s1.(done := true)
  }

  function OnPollDone(s: State, reply: Reply): State {
    var s1 := s.(polling := false);
    var cleared := if s.held.cancelPending then s1 else s1.(held := s1.held.(lastAck := None));
    var s2 := match reply
              case Command(t, action) => Arm(Handle(cleared, t, action))
              case NoAction => cleared
              case Failed => s1;
    Poll(s2, AckForPoll(s2), ReportOf(s2))
  }

  function OnEscalationTimer(s: State): State {
    var s1 := if s.stage == 0 then s.(stage := 1) else s.(stage := s.stage + 1, armed := false);
    if s.hasPid then Emit(s1, Escalated(if s.stage == 0 then SigInt else SigKill)) else s1
  }

  function OnSilenceTimer(s: State): State {
    if s.hasPid then Emit(s.(silence := false), Silenced) else s.(silence := false)
  }

  /** Whether the loop can take this input: it is running, and the source is active. */
  predicate Enabled(s: State, i: Input) {
    && !s.done
    && (i.PollDone? ==> s.polling)
    && (i.EscalationTimer? ==> s.armed)
    && (i.SilenceTimer? ==> s.silence)
  }

  /** One turn of the loop; an input that is not enabled is not taken. */
  function Step(s: State, i: Input): State {
    if !Enabled(s, i) then s
    else match i
      case TurnComplete(output, agentSession, settled, reply) => OnTurnComplete(s, output, agentSession, settled, reply)
      case Init(sid) => OnInit(s, sid)
      case Accepted(reply) => OnAccepted(s, reply)
      case MessageEvent(payload, ephemeral) => OnMessage(s, payload, ephemeral)
      case ProcessDied(agentSession) => OnProcessDied(s, agentSession)
      case Closed => OnClosed(s)
      case PollDone(reply) => OnPollDone(s, reply)
      case EscalationTimer => OnEscalationTimer(s)
      case SilenceTimer => OnSilenceTimer(s)
  }

  function Run(s: State, inputs: seq<Input>): State
    decreases |inputs|
  {
    if inputs == [] then s else Run(Step(s, inputs[0]), inputs[1..])
  }

  lemma {:induction false} RunConcat(s: State, a: seq<Input>, b: seq<Input>)
    ensures Run(s, a + b) == Run(Run(s, a), b)
    decreases |a|
  {
    hide Step;
    if a == [] {
      assert a + b == b;
    } else {
      assert (a + b)[1..] == a[1..] + b;
      RunConcat(Step(s, a[0]), a[1..], b);
    }
  }

  /** The command an input brings, if any. */
  function ReplyOf(i: Input): Reply {
    match i
    case TurnComplete(_, _, _, reply) => reply
    case Accepted(reply) => reply
    case PollDone(reply) => reply
    case _ => NoAction
  }

  function AckOf(e: Entry): Option<Token> {
    match e
    case Synced(ack, _, _) => ack
    case Polled(ack, _) => ack
    case _ => None
  }

  predicate EndsTurn(i: Input) {
    i.TurnComplete? || i.ProcessDied? || i.Closed?
  }

  /** A session that has ended takes nothing more. */
  lemma {:induction false} RunStops(s: State, inputs: seq<Input>)
    requires s.done
    ensures Run(s, inputs) == s
    decreases |inputs|
  {
    if inputs != [] {
      RunStops(s, inputs[1..]);
    }
  }
}
