/**
 * Which commands reach the executor, read off the log alone: what the log says the
 * executor is doing and which feed it says is pending decide what each delivery
 * sends on, and nothing else is sent.
 */
module WorkerCommands {
  import opened Prelude
  import opened Worker

  // ---- What the log says ----

  /** Whether the executor runs after `e`, given whether it ran before. */
  function RunsAfter(running: bool, e: Entry): bool {
    match e
    case Started => true
    case Sent(Prompt(_)) => true
    case Synced(_, Some(Idle), _) => false
    case _ => running
  }

  /** Whether the log leaves the executor running: it does at the start. */
  function Runs(log: seq<Entry>): bool {
    log == [] || RunsAfter(Runs(log[..|log| - 1]), log[|log| - 1])
  }

  /** The feed pending after `e`, given the one pending before. */
  function FeedAfter(feed: Option<Token>, e: Entry): Option<Token> {
    match e
    case Delivered(t, FeedTurn(Some(_))) => Some(t)
    case Delivered(_, StopTurn) => None
    case Delivered(_, Cancel) => None
    case FeedAccepted(_) => None
    case Synced(_, Some(Crashed), _) => None
    case _ => feed
  }

  /** The feed the log leaves pending. */
  function Feed(log: seq<Entry>): Option<Token> {
    if log == [] then None else FeedAfter(Feed(log[..|log| - 1]), log[|log| - 1])
  }

  lemma AppendReadings(log: seq<Entry>, e: Entry)
    ensures Runs(log + [e]) == RunsAfter(Runs(log), e)
    ensures Feed(log + [e]) == FeedAfter(Feed(log), e)
  {
    assert (log + [e])[..|log|] == log;
  }

  // ---- The commands a log calls for ----

  /** The entry at `i` calls for `c`. */
  predicate CallsFor(log: seq<Entry>, i: nat, c: AgentCommand)
    requires i < |log|
  {
    match log[i]
    case Delivered(t, FeedTurn(parts)) => parts.Some? && c == Prompt(parts.value) && Feed(log[..i]) != Some(t)
    case Delivered(_, StopTurn) => c == StopAgentTurn && Runs(log[..i])
    case Delivered(_, Cancel) => c == CancelAgent
    case _ => false
  }

  /** The entry after the one at `i` is that command. */
  predicate SentNext(log: seq<Entry>, i: nat, c: AgentCommand) {
    i + 1 < |log| && log[i + 1] == Sent(c)
  }

  /** A turn report, made while the executor lives. */
  predicate TurnReport(e: Entry) {
    e.Synced? && e.messages.Some? && e.report.Some? && e.report != Some(Crashed)
  }

  /** What is called for at `i` is sent next, and the agent is stopped only after a turn report, last of all. */
  ghost predicate CommandedAt(log: seq<Entry>, i: nat)
    requires i < |log|
  {
    && (forall c :: c != StopAgent ==> (CallsFor(log, i, c) <==> SentNext(log, i, c)))
    && (SentNext(log, i, StopAgent) ==> TurnReport(log[i]) && i + 2 == |log|)
  }

  /** Commands are sent exactly where they are called for, each right after the entry that calls for it. */
  ghost predicate Commanded(log: seq<Entry>) {
    && (log != [] ==> !log[0].Sent?)
    && forall i: nat :: i < |log| ==> CommandedAt(log, i)
  }

  /** Every state a poll reports is the one the log shows. */
  ghost predicate PollsTruthful(log: seq<Entry>) {
    forall i :: 0 <= i < |log| && log[i].Polled? && log[i].report.Some? ==>
      log[i].report == Some(if Runs(log[..i]) then Running else Idle)
  }

  /** The log may go on: the agent has not been stopped. */
  predicate Open(log: seq<Entry>) {
    log == [] || log[|log| - 1] != Sent(StopAgent)
  }

  lemma CallsForPrefix(log: seq<Entry>, more: seq<Entry>, i: nat, c: AgentCommand)
    requires i < |log|
    ensures CallsFor(log + more, i, c) == CallsFor(log, i, c)
  {
    hide Runs, Feed;
    assert (log + more)[..i] == log[..i];
  }

  /** Entries that come after the last one leave the earlier ones answered as they were. */
  lemma EarlierAnswered(log: seq<Entry>, more: seq<Entry>, i: nat)
    requires Commanded(log) && Open(log) && i < |log|
    requires i + 1 == |log| && more != [] ==>
               !more[0].Sent? || (more[0] == Sent(StopAgent) && |more| == 1 && TurnReport(log[i]))
    ensures CommandedAt(log + more, i)
  {
    hide CallsFor, TurnReport;
    assert CommandedAt(log, i);
    forall c | c != StopAgent ensures CallsFor(log + more, i, c) <==> SentNext(log + more, i, c) {
      CallsForPrefix(log, more, i, c);
    }
  }

  lemma AppendTruthful(log: seq<Entry>, e: Entry)
    requires PollsTruthful(log)
    requires e.Polled? && e.report.Some? ==> e.report == Some(if Runs(log) then Running else Idle)
    ensures PollsTruthful(log + [e])
  {
    hide Runs;
    var r := log + [e];
    forall i | 0 <= i < |r| && r[i].Polled? && r[i].report.Some?
      ensures r[i].report == Some(if Runs(r[..i]) then Running else Idle)
    {
      if i < |log| {
        assert r[..i] == log[..i];
      } else {
        assert r[..i] == log;
      }
    }
  }

  /** An entry that delivers and sends nothing. */
  lemma AppendOther(log: seq<Entry>, e: Entry)
    requires Commanded(log) && Open(log) && !e.Delivered? && !e.Sent?
    ensures Commanded(log + [e]) && Open(log + [e])
  {
    hide CommandedAt;
    forall i: nat | i < |log + [e]| ensures CommandedAt(log + [e], i) {
      if i < |log| {
        EarlierAnswered(log, [e], i);
      } else {
        LastAnswered(log, e);
      }
    }
  }

  lemma LastAnswered(log: seq<Entry>, e: Entry)
    requires !e.Delivered?
    ensures CommandedAt(log + [e], |log|)
  {
  }

  lemma AppendStop(log: seq<Entry>)
    requires Commanded(log) && Open(log) && log != [] && TurnReport(log[|log| - 1])
    ensures Commanded(log + [Sent(StopAgent)])
  {
    hide CommandedAt;
    forall i: nat | i < |log| + 1 ensures CommandedAt(log + [Sent(StopAgent)], i) {
      if i < |log| {
        EarlierAnswered(log, [Sent(StopAgent)], i);
      } else {
        LastAnswered(log, Sent(StopAgent));
      }
    }
  }

  /** A delivery followed by what it calls for. */
  lemma AppendDelivery(log: seq<Entry>, t: Token, action: Action, command: Option<AgentCommand>)
    requires Commanded(log) && Open(log)
    requires forall c :: CallsFor(log + [Delivered(t, action)], |log|, c) <==> command == Some(c)
    ensures var r := log + [Delivered(t, action)] + if command.Some? then [Sent(command.value)] else [];
            Commanded(r) && Open(r)
  {
    hide CommandedAt;
    var more := [Delivered(t, action)] + if command.Some? then [Sent(command.value)] else [];
    assert log + [Delivered(t, action)] + (if command.Some? then [Sent(command.value)] else []) == log + more;
    assert !CallsFor(log + [Delivered(t, action)], |log|, StopAgent);
    forall i: nat | i < |log + more| ensures CommandedAt(log + more, i) {
      if i < |log| {
        EarlierAnswered(log, more, i);
      } else if i == |log| {
        DeliveryAnswered(log, t, action, command);
      } else {
        assert log + more == log + [Delivered(t, action)] + [Sent(command.value)];
        LastAnswered(log + [Delivered(t, action)], Sent(command.value));
      }
    }
  }

  lemma DeliveryAnswered(log: seq<Entry>, t: Token, action: Action, command: Option<AgentCommand>)
    requires forall c :: CallsFor(log + [Delivered(t, action)], |log|, c) <==> command == Some(c)
    requires command != Some(StopAgent)
    ensures var more := [Delivered(t, action)] + if command.Some? then [Sent(command.value)] else [];
            CommandedAt(log + more, |log|)
  {
    hide CallsFor;
    var d := [Delivered(t, action)];
    var sent := if command.Some? then [Sent(command.value)] else [];
    assert log + (d + sent) == log + d + sent;
    forall c ensures CallsFor(log + (d + sent), |log|, c) <==> command == Some(c) {
      CallsForPrefix(log + d, sent, |log|, c);
    }
    assert forall c :: SentNext(log + (d + sent), |log|, c) <==> command == Some(c);
  }

  // ---- The session keeps to its log ----

  /** The state agrees with what its log says, and its log is in order. */
  ghost predicate Agrees(s: State) {
    && s.running == Runs(s.log) && s.held.pendingFeed == Feed(s.log)
    && Commanded(s.log) && PollsTruthful(s.log) && (s.done || Open(s.log))
  }

  /** A step from `s` to `s'` that issues one entry, neither a delivery nor a command. */
  lemma IssueAgrees(s: State, s': State, e: Entry)
    requires Agrees(s) && Open(s.log) && s'.log == s.log + [e] && !e.Delivered? && !e.Sent?
    requires e.Polled? && e.report.Some? ==> e.report == Some(if s.running then Running else Idle)
    requires s'.running == RunsAfter(s.running, e) && s'.held.pendingFeed == FeedAfter(s.held.pendingFeed, e)
    ensures Agrees(s') && Open(s'.log)
  {
    hide Commanded, PollsTruthful, Runs, Feed, RunsAfter, FeedAfter, Open;
    AppendReadings(s.log, e);
    AppendOther(s.log, e);
    AppendTruthful(s.log, e);
  }

  lemma HandleAgrees(s: State, t: Token, action: Action)
    requires Agrees(s) && Open(s.log)
    ensures Agrees(Handle(s, t, action)) && Open(Handle(s, t, action).log)
  {
    hide Commanded, PollsTruthful, Runs, Feed, Open;
    var d := Delivered(t, action);
    var command := Forward(s, t, action);
    AppendReadings(s.log, d);
    AppendTruthful(s.log, d);
    assert (s.log + [d])[..|s.log|] == s.log;
    AppendDelivery(s.log, t, action, command);
    if command.Some? {
      AppendReadings(s.log + [d], Sent(command.value));
      AppendTruthful(s.log + [d], Sent(command.value));
    } else {
      assert s.log + [d] + [] == s.log + [d];
    }
  }

  lemma PollAgrees(s: State, ack: Option<Token>, report: Option<ExecutorState>)
    requires Agrees(s) && Open(s.log) && (report.Some? ==> report == Some(if s.running then Running else Idle))
    ensures Agrees(Poll(s, ack, report)) && Open(Poll(s, ack, report).log)
  {
    hide Agrees, Open;
    IssueAgrees(s, Poll(s, ack, report), Polled(ack, report));
  }

  lemma CommandAgrees(s: State, t: Token, action: Action)
    requires Agrees(s) && Open(s.log)
    ensures var h := Arm(Handle(s, t, action)); Agrees(h) && Open(h.log)
  {
    hide Agrees, Open, Handle;
    HandleAgrees(s, t, action);
    var h := Handle(s, t, action);
    if Arm(h) != h {
      IssueAgrees(h, Arm(h), Armed);
    }
  }

  lemma ReportTurnAgrees(s: State, output: Option<Payload>, agentSession: Option<string>, settled: bool)
    requires Agrees(s) && Open(s.log)
    ensures var r := ReportTurn(s, output, agentSession, settled);
            Agrees(r) && Open(r.log) && r.log != [] && TurnReport(r.log[|r.log| - 1])
  {
    hide Agrees, Open, TurnMessages;
    var r := ReportTurn(s, output, agentSession, settled);
    IssueAgrees(s, r, r.log[|s.log|]);
  }

  lemma ResumeTurnAgrees(s: State, reply: Reply)
    requires Agrees(s) && Open(s.log) && s.log != [] && TurnReport(s.log[|s.log| - 1])
    ensures Agrees(ResumeTurn(s, reply)) && (reply.Failed? || Open(ResumeTurn(s, reply).log))
  {
    hide Commanded, PollsTruthful, Runs, Feed, Open, Handle, Arm, Poll;
    if reply.Failed? {
      AppendStop(s.log);
      AppendReadings(s.log, Sent(StopAgent));
      AppendTruthful(s.log, Sent(StopAgent));
    } else if !s.held.cancelPending {
      var s1 := Answered(s);
      if reply.NoAction? {
        PollAgrees(s1, s1.held.lastAck, None);
      } else {
        CommandAgrees(s1, reply.token, reply.action);
        var h := Arm(Handle(s1, reply.token, reply.action));
        PollAgrees(h, if h.held.pendingStop.Some? || h.held.pendingFeed.Some? then None else h.held.lastAck, None);
      }
    }
  }

  lemma AcceptedAgrees(s: State, reply: Reply)
    requires Agrees(s) && Open(s.log)
    ensures Agrees(OnAccepted(s, reply)) && Open(OnAccepted(s, reply).log)
  {
    hide Commanded, PollsTruthful, Runs, Feed, Open, Handle, Arm, Poll;
    if s.held.pendingFeed.Some? {
      var token := s.held.pendingFeed.value;
      var s1 := Emit(s.(silence := false, held := s.held.(pendingFeed := None), polling := false), FeedAccepted(token));
      IssueAgrees(s, s1, FeedAccepted(token));
      var s2 := FeedAcked(s, token);
      IssueAgrees(s1, s2, Synced(Some(token), Some(Running), None));
      match reply {
        case Command(t, action) => CommandAgrees(s2, t, action);
        case NoAction =>
        case Failed =>
      }
      var s3 := match reply
                case Command(t, action) => Arm(Handle(s2, t, action))
                case NoAction => s2
                case Failed => s2.(held := s2.held.(lastAck := Some(token)));
      PollAgrees(s3, AckForPoll(s3), ReportOf(s3));
    }
  }

  lemma PollDoneAgrees(s: State, reply: Reply)
    requires Agrees(s) && Open(s.log)
    ensures Agrees(OnPollDone(s, reply)) && Open(OnPollDone(s, reply).log)
  {
    hide Commanded, PollsTruthful, Runs, Feed, Open, Handle, Arm, Poll;
    var s1 := s.(polling := false);
    var cleared := if s.held.cancelPending then s1 else s1.(held := s1.held.(lastAck := None));
    match reply {
      case Command(t, action) => CommandAgrees(cleared, t, action);
      case NoAction =>
      case Failed =>
    }
    var s2 := match reply
              case Command(t, action) => Arm(Handle(cleared, t, action))
              case NoAction => cleared
              case Failed => s1;
    PollAgrees(s2, AckForPoll(s2), ReportOf(s2));
  }

  lemma InitAgrees(s: State, sessionId: string)
    requires Agrees(s) && Open(s.log)
    ensures Agrees(OnInit(s, sessionId)) && Open(OnInit(s, sessionId).log)
  {
    hide Agrees, Open;
    var s1 := Emit(s.(silence := false, agentSession := Some(sessionId), running := true), Started);
    IssueAgrees(s, s1, Started);
    PollAgrees(s1, s1.held.lastAck, Some(Running));
  }

  /** A step that issues at most one entry, and changes neither what runs nor what is pending. */
  lemma QuietAgrees(s: State, i: Input)
    requires Agrees(s) && Open(s.log)
    requires i.MessageEvent? || i.EscalationTimer? || i.SilenceTimer?
    ensures Agrees(Step(s, i)) && Open(Step(s, i).log)
  {
    hide Commanded, PollsTruthful, Runs, Feed, Open;
    var r := Step(s, i);
    if |r.log| > |s.log| {
      IssueAgrees(s, r, r.log[|s.log|]);
    }
  }

  lemma TakeAckShape(s: State)
    ensures var r := TakeAck(s).1;
            r.log == s.log && r.running == s.running && r.held.pendingFeed == s.held.pendingFeed
  {
  }

  lemma DiedAgrees(s: State, agentSession: Option<string>)
    requires Agrees(s) && Open(s.log)
    ensures Agrees(OnProcessDied(s, agentSession))
  {
    hide Agrees, Open, TakeAck;
    var s1 := Abandoned(s, agentSession);
    TakeAckShape(s1);
    IssueAgrees(s, OnProcessDied(s, agentSession), Synced(TakeAck(s1).0, Some(Crashed), Some(s.buffer)));
  }

  lemma ClosedAgrees(s: State)
    requires Agrees(s) && Open(s.log)
    ensures Agrees(OnClosed(s))
  {
    hide Commanded, PollsTruthful, Runs, Feed, Open, TakeAck;
    TakeAckShape(s);
    var ack := TakeAck(s).0;
    if ack.Some? {
      IssueAgrees(s, OnClosed(s), Synced(ack, None, None));
    }
  }

  lemma StepAgrees(s: State, i: Input)
    requires Agrees(s)
    ensures Agrees(Step(s, i))
  {
    hide Commanded, PollsTruthful, Runs, Feed, Open, OnAccepted, OnPollDone, OnInit, OnMessage, OnProcessDied, OnClosed,
      OnEscalationTimer, OnSilenceTimer, ReportTurn, ResumeTurn;
    if Enabled(s, i) {
      match i
      case TurnComplete(output, agentSession, settled, reply) =>
        ReportTurnAgrees(s, output, agentSession, settled);
        ResumeTurnAgrees(ReportTurn(s, output, agentSession, settled), reply);
      case Init(sessionId) => InitAgrees(s, sessionId);
      case Accepted(reply) => AcceptedAgrees(s, reply);
      case PollDone(reply) => PollDoneAgrees(s, reply);
      case ProcessDied(agentSession) => DiedAgrees(s, agentSession);
      case Closed => ClosedAgrees(s);
      case _ => QuietAgrees(s, i);
    }
  }

  lemma {:induction false} RunAgrees(s: State, inputs: seq<Input>)
    requires Agrees(s)
    ensures Agrees(Run(s, inputs))
    decreases |inputs|
  {
    hide Agrees, Step;
    if inputs != [] {
      StepAgrees(s, inputs[0]);
      RunAgrees(Step(s, inputs[0]), inputs[1..]);
    }
  }

  /**
   * In every run, read off the log: a stop reaches the executor right after each stop
   * delivered while it runs, a cancel right after each cancel delivered, a prompt with
   * a feed's own parts right after each feed delivered with parts while its token is
   * not already pending, and none anywhere else; the agent is stopped only right after
   * a turn report, as the last entry; and every state a poll reports is the one the
   * log shows.
   */
  lemma CommandsForwarded(initial: Token, asid: Option<string>, seq0: int, hasPid: bool, inputs: seq<Input>)
    ensures var s := Run(Start(initial, asid, seq0, hasPid), inputs);
            && Commanded(s.log) && PollsTruthful(s.log)
            && s.running == Runs(s.log) && s.held.pendingFeed == Feed(s.log)
  {
    RunAgrees(Start(initial, asid, seq0, hasPid), inputs);
    hide Run;
  }

  // ---- The log keeps to what arrives ----

  /** What the session learned or did at an entry, as far as it comes from outside. */
  datatype Happening =
    | Heard(token: Token, action: Action)
    | TookFeed(token: Token)
    | Began
    | Turned(state: ExecutorState)
    | GaveUp
    | KilledSilent

  function HappenedAt(e: Entry): seq<Happening> {
    match e
    case Delivered(t, action) => [Heard(t, action)]
    case FeedAccepted(t) => [TookFeed(t)]
    case Started => [Began]
    case Synced(_, Some(state), Some(_)) => [Turned(state)]
    case Sent(StopAgent) => [GaveUp]
    case Silenced => [KilledSilent]
    case _ => []
  }

  function History(log: seq<Entry>): seq<Happening> {
    if log == [] then [] else History(log[..|log| - 1]) + HappenedAt(log[|log| - 1])
  }

  /** The command a reply brings. */
  function HeardFrom(reply: Reply): seq<Happening> {
    if reply.Command? then [Heard(reply.token, reply.action)] else []
  }

  /**
   * What an input adds: a report says idle exactly when the turn settled, its reply is
   * heard unless a cancel was outstanding, an acceptance counts while a feed is pending,
   * and an executor silent for too long is killed.
   */
  function Adds(s: State, i: Input): seq<Happening> {
    match i
    case TurnComplete(_, _, settled, reply) =>
      [Turned(if settled then Idle else Running)]
      + if reply.Failed? then [GaveUp] else if s.held.cancelPending then [] else HeardFrom(reply)
    case Init(_) => [Began]
    case Accepted(reply) =>
      if s.held.pendingFeed.None? then [] else [TookFeed(s.held.pendingFeed.value)] + HeardFrom(reply)
    case ProcessDied(_) => [Turned(Crashed)]
    case PollDone(reply) => HeardFrom(reply)
    case SilenceTimer => if s.hasPid then [KilledSilent] else []
    case _ => []
  }

  lemma AppendHistory(log: seq<Entry>, e: Entry)
    ensures History(log + [e]) == History(log) + HappenedAt(e)
  {
    assert (log + [e])[..|log|] == log;
  }

  lemma CommandHistory(s: State, t: Token, action: Action)
    ensures History(Arm(Handle(s, t, action)).log) == History(s.log) + [Heard(t, action)]
  {
    hide History, HandleHeld;
    var d := Delivered(t, action);
    var command := Forward(s, t, action);
    AppendHistory(s.log, d);
    if command.Some? {
      AppendHistory(s.log + [d], Sent(command.value));
    } else {
      assert s.log + [d] + [] == s.log + [d];
    }
    AppendHistory(Handle(s, t, action).log, Armed);
  }

  lemma PollHistory(s: State, ack: Option<Token>, report: Option<ExecutorState>)
    ensures History(Poll(s, ack, report).log) == History(s.log)
  {
    AppendHistory(s.log, Polled(ack, report));
  }

  lemma ReportHistory(s: State, output: Option<Payload>, agentSession: Option<string>, settled: bool)
    ensures History(ReportTurn(s, output, agentSession, settled).log)
            == History(s.log) + [Turned(if settled then Idle else Running)]
    ensures ReportTurn(s, output, agentSession, settled).held.cancelPending == s.held.cancelPending
  {
    hide History, TurnMessages;
    AppendHistory(s.log, ReportTurn(s, output, agentSession, settled).log[|s.log|]);
  }

  lemma ResumeHistory(s: State, reply: Reply)
    ensures History(ResumeTurn(s, reply).log) == History(s.log)
            + if reply.Failed? then [GaveUp] else if s.held.cancelPending then [] else HeardFrom(reply)
  {
    hide History, Handle, Arm, Poll;
    AppendHistory(s.log, Sent(StopAgent));
    if !reply.Failed? && !s.held.cancelPending {
      var s1 := Answered(s);
      if reply.NoAction? {
        PollHistory(s1, s1.held.lastAck, None);
      } else {
        CommandHistory(s1, reply.token, reply.action);
        var h := Arm(Handle(s1, reply.token, reply.action));
        PollHistory(h, if h.held.pendingStop.Some? || h.held.pendingFeed.Some? then None else h.held.lastAck, None);
      }
    }
  }

  lemma AcceptedHistory(s: State, reply: Reply)
    ensures History(OnAccepted(s, reply).log) == History(s.log) + Adds(s, Accepted(reply))
  {
    hide History, Handle, Arm, Poll;
    if s.held.pendingFeed.Some? {
      var token := s.held.pendingFeed.value;
      AppendHistory(s.log, FeedAccepted(token));
      AppendHistory(s.log + [FeedAccepted(token)], Synced(Some(token), Some(Running), None));
      var s2 := FeedAcked(s, token);
      if reply.Command? {
        CommandHistory(s2, reply.token, reply.action);
      }
      var s3 := match reply
                case Command(t, action) => Arm(Handle(s2, t, action))
                case NoAction => s2
                case Failed => s2.(held := s2.held.(lastAck := Some(token)));
      PollHistory(s3, AckForPoll(s3), ReportOf(s3));
    }
  }

  lemma PollDoneHistory(s: State, reply: Reply)
    ensures History(OnPollDone(s, reply).log) == History(s.log) + HeardFrom(reply)
  {
    hide History, Handle, Arm, Poll;
    var s1 := s.(polling := false);
    var cleared := if s.held.cancelPending then s1 else s1.(held := s1.held.(lastAck := None));
    if reply.Command? {
      CommandHistory(cleared, reply.token, reply.action);
    }
    var s2 := match reply
              case Command(t, action) => Arm(Handle(cleared, t, action))
              case NoAction => cleared
              case Failed => s1;
    PollHistory(s2, AckForPoll(s2), ReportOf(s2));
  }

  lemma InitHistory(s: State, sessionId: string)
    ensures History(OnInit(s, sessionId).log) == History(s.log) + [Began]
  {
    hide History, Poll;
    AppendHistory(s.log, Started);
    var s1 := Emit(s.(silence := false, agentSession := Some(sessionId), running := true), Started);
    PollHistory(s1, s1.held.lastAck, Some(Running));
  }

  lemma DiedHistory(s: State, agentSession: Option<string>)
    ensures History(OnProcessDied(s, agentSession).log) == History(s.log) + [Turned(Crashed)]
  {
    hide History, TakeAck;
    var s1 := Abandoned(s, agentSession);
    TakeAckShape(s1);
    AppendHistory(s.log, Synced(TakeAck(s1).0, Some(Crashed), Some(s.buffer)));
  }

  lemma ClosedHistory(s: State)
    ensures History(OnClosed(s).log) == History(s.log)
  {
    hide History, TakeAck;
    TakeAckShape(s);
    AppendHistory(s.log, Synced(TakeAck(s).0, None, None));
  }

  lemma QuietHistory(s: State, i: Input)
    requires i.MessageEvent? || i.EscalationTimer? || i.SilenceTimer?
    requires Enabled(s, i)
    ensures History(Step(s, i).log) == History(s.log) + Adds(s, i)
  {
    hide History;
    var r := Step(s, i);
    if |r.log| > |s.log| {
      AppendHistory(s.log, r.log[|s.log|]);
    }
  }

  /** Every input the loop takes puts into the log exactly what it brings. */
  lemma HistoryGrows(s: State, i: Input)
    requires Enabled(s, i)
    ensures History(Step(s, i).log) == History(s.log) + Adds(s, i)
  {
    hide History, OnAccepted, OnPollDone, OnInit, OnMessage, OnProcessDied, OnClosed, OnEscalationTimer, OnSilenceTimer,
      ReportTurn, ResumeTurn, HeardFrom;
    match i
    case TurnComplete(output, agentSession, settled, reply) =>
      ReportHistory(s, output, agentSession, settled);
      ResumeHistory(ReportTurn(s, output, agentSession, settled), reply);
    case Init(sessionId) => InitHistory(s, sessionId);
    case Accepted(reply) => AcceptedHistory(s, reply);
    case PollDone(reply) => PollDoneHistory(s, reply);
    case ProcessDied(agentSession) => DiedHistory(s, agentSession);
    case Closed => ClosedHistory(s);
    case _ => QuietHistory(s, i);
  }
}
